/** The client side of delivery, fabric/src/sdk.rs: a pool of charged buffers and a window of unconfirmed records. */
module Sdk {
  import opened Common
  import opened Kernel
  import opened Custody

  datatype Buffer = Buffer(bytes: seq<byte>, credit: Slot, sequence: nat) {
    function Payload(): seq<byte>
      requires credit.len <= |bytes|
    {
      bytes[..credit.len]
    }
  }

  datatype Config = Config(producer: Text, generation: Text, slots: nat, maxRecord: nat)

  /**
  What the client uses of serde_json and of the observation rules: the text of an envelope, whether its data is
  valid, and the nesting check on the text.
  */
  datatype Library<-D> = Library(valid: D -> bool, render: (Identity, nat, D) -> seq<byte>, shallow: seq<byte> -> bool)

  datatype Admission = Accepted(sequence: nat) | Invalid | TooLarge | Full | Contended | Closed | Exhausted

  datatype Pool = Pool(
    free: seq<Buffer>,
    ready: seq<Buffer>,
    accepted: nat,
    confirmed: nat,
    lastReceipt: Option<Receipt>,
    inflight: Option<nat>,
    closed: bool,
    retries: nat
  )

  // ---------------------------------------------------------------- admission-kernel/src/delivery.rs

  function NextSequence(accepted: nat, confirmed: nat, slots: nat): Option<nat> {
    if confirmed <= accepted && accepted < U64_MAX && accepted - confirmed < slots then Some(accepted + 1) else None
  }

  function ConfirmSequence(accepted: nat, confirmed: nat, receipt: nat): Option<nat> {
    if confirmed < accepted && receipt == confirmed + 1 then Some(receipt) else None
  }

  predicate Covered(confirmed: nat, target: nat) {
    target <= confirmed
  }

  /** The window: the next sequence exactly while fewer than `slots` are unconfirmed; a receipt exactly for the one behind the frontier. */
  lemma WindowContracts(accepted: nat, confirmed: nat, slots: nat, receipt: nat)
    requires accepted <= U64_MAX && confirmed <= U64_MAX
    ensures var r := NextSequence(accepted, confirmed, slots);
      && (r.Some? <==> confirmed <= accepted < U64_MAX && accepted + 1 <= confirmed + slots)
      && (r.Some? ==> r.value == accepted + 1)
    ensures var r := ConfirmSequence(accepted, confirmed, receipt);
      && (r.Some? <==> confirmed + 1 == receipt <= accepted) && (r.Some? ==> r.value == receipt)
    ensures Covered(confirmed, receipt) <==> confirmed >= receipt
  {
  }

  // ---------------------------------------------------------------- the steps, on values

  function Fresh(slots: nat, maxRecord: nat): seq<Buffer> {
    seq(slots, id requires 0 <= id => Buffer(seq(maxRecord, _ => 0), Slot(id, maxRecord, 0, Free), 0))
  }

  function Opened(c: Config): Pool {
    Pool(Fresh(c.slots, c.maxRecord), [], 0, 0, None, None, false, 0)
  }

  /** What the serializer leaves in a buffer: the text, or as much of it as fits. */
  function Overwrite(bytes: seq<byte>, text: seq<byte>): (r: seq<byte>)
    ensures |r| == |bytes|
  {
    if |text| <= |bytes| then text + bytes[|text|..] else text[..|bytes|]
  }

  /** try_record under the lock. */
  function Recorded<D>(p: Pool, c: Config, lib: Library<D>, timestamp: nat, data: D): (Pool, Admission) {
    if p.closed then (p, Closed)
    else if p.accepted == U64_MAX then (p, Exhausted)
    else match NextSequence(p.accepted, p.confirmed, c.slots)
      case None => (p, Full)
      case Some(sequence) =>
        if p.free == [] then (p, Full)
        else
          var buffer := p.free[|p.free| - 1];
          var rest := p.free[..|p.free| - 1];
          var text := lib.render(Identity(c.producer, c.generation, sequence), timestamp, data);
          if !lib.valid(data) then (p.(free := rest + [buffer]), Invalid)
          else
            var written := buffer.(bytes := Overwrite(buffer.bytes, text));
            if |text| > |buffer.bytes| then (p.(free := rest + [written]), TooLarge)
            else if !lib.shallow(text) then (p.(free := rest + [written]), Invalid)
            else
              var charged := written.(credit := buffer.credit.(phase := Ready, len := |text|), sequence := sequence);
              (p.(free := rest, ready := p.ready + [charged], accepted := sequence), Accepted(sequence))
  }

  /** The worker takes the front record out to send it. */
  function Taken(p: Pool): (Pool, Buffer)
    requires p.ready != []
  {
    var buffer := p.ready[0].(credit := p.ready[0].credit.(phase := Leased));
    (p.(ready := p.ready[1..], inflight := Some(buffer.credit.id)), buffer)
  }

  predicate Matches(p: Pool, c: Config, buffer: Buffer, outcome: Option<Receipt>) {
    && outcome.Some?
    && outcome.value.identity.producer == c.producer
    && outcome.value.identity.generation == c.generation
    && outcome.value.identity.sequence == buffer.sequence
    && ConfirmSequence(p.accepted, p.confirmed, outcome.value.identity.sequence).Some?
  }

  /** The worker comes back with a receipt, or with none: confirm and release, or keep the charge and retry. */
  function Settled(p: Pool, c: Config, buffer: Buffer, outcome: Option<Receipt>): Pool {
    if Matches(p, c, buffer, outcome) then
      p.(inflight := None, confirmed := buffer.sequence, lastReceipt := outcome,
         free := p.free + [buffer.(credit := buffer.credit.(phase := Free, len := 0))])
    else
      p.(inflight := None, retries := SaturatingAdd(p.retries, 1),
         ready := [buffer.(credit := buffer.credit.(phase := Ready))] + p.ready)
  }

  // ---------------------------------------------------------------- the pool invariant

  function IdList(buffers: seq<Buffer>): seq<nat> {
    seq(|buffers|, k requires 0 <= k < |buffers| => buffers[k].credit.id)
  }

  function Ids(buffers: seq<Buffer>): multiset<nat> {
    multiset(IdList(buffers))
  }

  lemma IdsSnoc(a: seq<Buffer>, b: Buffer)
    ensures Ids(a + [b]) == Ids(a) + multiset{b.credit.id}
  {
    assert IdList(a + [b]) == IdList(a) + [b.credit.id];
  }

  lemma IdsCons(a: Buffer, b: seq<Buffer>)
    ensures Ids([a] + b) == multiset{a.credit.id} + Ids(b)
  {
    assert IdList([a] + b) == [a.credit.id] + IdList(b);
  }

  /** 0..slots, each once. */
  function AllIds(slots: nat): multiset<nat> {
    multiset(seq(slots, i => i))
  }

  function Flight(inflight: Option<nat>): multiset<nat> {
    if inflight.Some? then multiset{inflight.value} else multiset{}
  }

  predicate BufferOk(b: Buffer, maxRecord: nat, phase: Phase) {
    |b.bytes| == maxRecord && b.credit.capacity == maxRecord && b.credit.Valid() && b.credit.phase == phase
  }

  /**
  Every buffer is in one place: the ids of the free, ready and in-flight ones are 0..slots, each once. The charged
  ones are exactly the records accepted and not yet confirmed, in order from the frontier.
  */
  ghost predicate PoolOk(p: Pool, c: Config) {
    && Ids(p.free) + Ids(p.ready) + Flight(p.inflight) == AllIds(c.slots)
    && p.confirmed <= p.accepted <= U64_MAX
    && p.accepted - p.confirmed == |p.ready| + |Flight(p.inflight)|
    && (forall k :: 0 <= k < |p.free| ==> BufferOk(p.free[k], c.maxRecord, Free))
    && (forall k :: 0 <= k < |p.ready| ==>
          BufferOk(p.ready[k], c.maxRecord, Ready) && p.ready[k].sequence == p.confirmed + 1 + |Flight(p.inflight)| + k)
  }

  /** The buffer the worker holds while it sends. */
  predicate Carried(p: Pool, c: Config, b: Buffer) {
    BufferOk(b, c.maxRecord, Leased) && p.inflight == Some(b.credit.id) && b.sequence == p.confirmed + 1
  }

  /** So the free list runs dry exactly when the window is full, and the branch for an empty one is dead. */
  lemma FreeIsTheRest(p: Pool, c: Config)
    requires PoolOk(p, c)
    ensures |p.free| + (p.accepted - p.confirmed) == c.slots
    ensures NextSequence(p.accepted, p.confirmed, c.slots).Some? ==> p.free != []
  {
    assert |Ids(p.free) + Ids(p.ready) + Flight(p.inflight)| == |AllIds(c.slots)|;
  }

  /** A new client is open, with every buffer free and nothing accepted, confirmed, carried or retried. */
  lemma OpenedOk(c: Config)
    ensures PoolOk(Opened(c), c)
    ensures var p := Opened(c);
      && !p.closed && |p.free| == c.slots && p.ready == [] && p.inflight == None && p.lastReceipt == None
      && p.accepted == p.confirmed == p.retries == 0
  {
    assert IdList(Fresh(c.slots, c.maxRecord)) == seq(c.slots, i => i);
    assert IdList([]) == [];
  }

  lemma RecordedOk<D>(p: Pool, c: Config, lib: Library<D>, timestamp: nat, data: D)
    requires PoolOk(p, c)
    ensures PoolOk(Recorded(p, c, lib, timestamp, data).0, c)
  {
    hide Ids, AllIds;
    var q := Recorded(p, c, lib, timestamp, data).0;
    if q != p {
      var rest, last := p.free[..|p.free| - 1], p.free[|p.free| - 1];
      assert p.free == rest + [last];
      IdsSnoc(rest, last);
      if q.accepted == p.accepted {
        var back := q.free[|rest|];
        assert q == p.(free := rest + [back]);
        PutBackOk(p, c, rest, last, back);
      } else {
        var charged := q.ready[|p.ready|];
        assert q == p.(free := rest, ready := p.ready + [charged], accepted := p.accepted + 1);
        AdmitOk(p, c, rest, last, charged);
      }
    }
  }

  /**
  What each answer of `try_record` means: the client closed, the sequences used up, the window full, the data or its text
  refused, the text too long, or none of these; and only an accepted record changes more than the bytes of a free buffer.
  */
  lemma AnswersExactly<D>(p: Pool, c: Config, lib: Library<D>, timestamp: nat, data: D)
    requires PoolOk(p, c)
    ensures var (q, r) := Recorded(p, c, lib, timestamp, data);
      var text := lib.render(Identity(c.producer, c.generation, p.accepted + 1), timestamp, data);
      var room := !p.closed && p.accepted < U64_MAX && p.accepted - p.confirmed < c.slots;
      && (r == Closed <==> p.closed)
      && (r == Exhausted <==> !p.closed && p.accepted == U64_MAX)
      && (r == Full <==> !p.closed && p.accepted < U64_MAX && p.accepted - p.confirmed == c.slots)
      && (r == TooLarge <==> room && lib.valid(data) && |text| > c.maxRecord)
      && (r == Invalid <==> room && (!lib.valid(data) || (|text| <= c.maxRecord && !lib.shallow(text))))
      && (r == Accepted(p.accepted + 1) <==> room && lib.valid(data) && |text| <= c.maxRecord && lib.shallow(text))
      && (!r.Accepted? ==> q == p.(free := q.free) && |q.free| == |p.free|)
  {
    hide Ids, AllIds;
    FreeIsTheRest(p, c);
    assert p.accepted - p.confirmed < c.slots ==> p.free != [] && |p.free[|p.free| - 1].bytes| == c.maxRecord;
  }

  lemma PutBackOk(p: Pool, c: Config, rest: seq<Buffer>, last: Buffer, back: Buffer)
    requires PoolOk(p, c) && p.free == rest + [last]
    requires BufferOk(back, c.maxRecord, Free) && back.credit.id == last.credit.id
    ensures PoolOk(p.(free := rest + [back]), c)
  {
    hide Ids, AllIds;
    IdsSnoc(rest, last);
    IdsSnoc(rest, back);
    assert forall k :: 0 <= k < |rest| ==> rest[k] == p.free[k];
  }

  lemma AdmitOk(p: Pool, c: Config, rest: seq<Buffer>, last: Buffer, charged: Buffer)
    requires PoolOk(p, c) && p.free == rest + [last] && p.accepted < U64_MAX
    requires BufferOk(charged, c.maxRecord, Ready) && charged.credit.id == last.credit.id && charged.sequence == p.accepted + 1
    ensures PoolOk(p.(free := rest, ready := p.ready + [charged], accepted := p.accepted + 1), c)
  {
    hide Ids, AllIds;
    IdsSnoc(rest, last);
    IdsSnoc(p.ready, charged);
    assert forall k :: 0 <= k < |rest| ==> rest[k] == p.free[k];
    var ready := p.ready + [charged];
    assert forall k :: 0 <= k < |p.ready| ==> ready[k] == p.ready[k];
  }

  lemma TakenOk(p: Pool, c: Config)
    requires PoolOk(p, c) && p.ready != [] && p.inflight == None
    ensures PoolOk(Taken(p).0, c) && Carried(Taken(p).0, c, Taken(p).1)
  {
    hide Ids, AllIds;
    assert p.ready == [p.ready[0]] + p.ready[1..];
    IdsCons(p.ready[0], p.ready[1..]);
  }

  lemma SettledOk(p: Pool, c: Config, buffer: Buffer, outcome: Option<Receipt>)
    requires PoolOk(p, c) && Carried(p, c, buffer)
    ensures PoolOk(Settled(p, c, buffer, outcome), c)
  {
    hide Ids, AllIds;
    if Matches(p, c, buffer, outcome) {
      ConfirmOk(p, c, buffer, buffer.(credit := buffer.credit.(phase := Free, len := 0)));
    } else {
      RetryOk(p, c, buffer.(credit := buffer.credit.(phase := Ready)));
    }
  }

  lemma ConfirmOk(p: Pool, c: Config, buffer: Buffer, freed: Buffer)
    requires PoolOk(p, c) && Carried(p, c, buffer) && p.confirmed < p.accepted
    requires BufferOk(freed, c.maxRecord, Free) && p.inflight == Some(freed.credit.id)
    ensures PoolOk(p.(inflight := None, confirmed := p.confirmed + 1, free := p.free + [freed]), c)
  {
    hide Ids, AllIds;
    IdsSnoc(p.free, freed);
    var free := p.free + [freed];
    assert forall k :: 0 <= k < |p.free| ==> free[k] == p.free[k];
  }

  lemma RetryOk(p: Pool, c: Config, kept: Buffer)
    requires PoolOk(p, c) && BufferOk(kept, c.maxRecord, Ready)
    requires p.inflight == Some(kept.credit.id) && kept.sequence == p.confirmed + 1
    ensures PoolOk(p.(inflight := None, ready := [kept] + p.ready), c)
  {
    hide Ids, AllIds;
    IdsCons(kept, p.ready);
    var ready := [kept] + p.ready;
    assert forall k :: 0 < k < |ready| ==> ready[k] == p.ready[k - 1];
  }

  /** A receipt for the record in flight always advances the frontier, by exactly one. */
  lemma MatchingReceiptAdvances(p: Pool, c: Config, buffer: Buffer, receipt: Receipt)
    requires PoolOk(p, c) && Carried(p, c, buffer)
    requires receipt.identity == Identity(c.producer, c.generation, buffer.sequence)
    ensures Settled(p, c, buffer, Some(receipt)).confirmed == p.confirmed + 1
  {
  }

  /** An exchange either raises the frontier by one, and keeps the receipt, or is counted as a retry; never both. */
  lemma SettlesOnce(p: Pool, c: Config, buffer: Buffer, outcome: Option<Receipt>)
    requires PoolOk(p, c) && Carried(p, c, buffer)
    ensures var q := Settled(p, c, buffer, outcome);
      if outcome.Some? && outcome.value.identity == Identity(c.producer, c.generation, p.confirmed + 1) then
        && q.confirmed == p.confirmed + 1 && q.lastReceipt == outcome && q.retries == p.retries && q.ready == p.ready
        && |q.free| == |p.free| + 1
      else
        && q.confirmed == p.confirmed && q.lastReceipt == p.lastReceipt && q.retries == SaturatingAdd(p.retries, 1)
        && |q.ready| == |p.ready| + 1 && q.ready[0].sequence == buffer.sequence && q.ready[0].bytes == buffer.bytes && q.free == p.free
  {
    hide Ids, AllIds;
    assert p.confirmed < p.accepted;
  }

  // ---------------------------------------------------------------- the same in place

  class Client {
    var pool: Pool
    const config: Config

    ghost predicate Valid()
      reads this
    {
      PoolOk(pool, config)
    }

    constructor (config: Config)
      ensures Valid() && pool == Opened(config) && this.config == config
    {
      this.config := config;
      pool := Opened(config);
      OpenedOk(config);
    }

    /** The kernel transitions the source asserts are asserted here, and cannot fail. */
    method TryRecord<D>(lib: Library<D>, timestamp: nat, data: D) returns (r: Admission)
      requires Valid()
      modifies this
      ensures Valid()
      ensures (pool, r) == Recorded(old(pool), config, lib, timestamp, data)
    {
      hide Ids, AllIds;
      RecordedOk(pool, config, lib, timestamp, data);
      if pool.closed {
        return Closed;
      }
      if pool.accepted == U64_MAX {
        return Exhausted;
      }
      var next := NextSequence(pool.accepted, pool.confirmed, config.slots);
      if next == None {
        return Full;
      }
      FreeIsTheRest(pool, config);
      var buffer := pool.free[|pool.free| - 1];
      pool := pool.(free := pool.free[..|pool.free| - 1]);
      assert buffer.credit.Reserve().Some?;
      buffer := buffer.(credit := buffer.credit.Reserve().value);
      if !lib.valid(data) {
        pool := PutBack(pool, buffer);
        return Invalid;
      }
      var text := lib.render(Identity(config.producer, config.generation, next.value), timestamp, data);
      buffer := buffer.(bytes := Overwrite(buffer.bytes, text));
      if |text| > |buffer.bytes| {
        pool := PutBack(pool, buffer);
        return TooLarge;
      }
      if !lib.shallow(text) {
        pool := PutBack(pool, buffer);
        return Invalid;
      }
      assert buffer.credit.Publish(|text|).Some?;
      buffer := buffer.(credit := buffer.credit.Publish(|text|).value, sequence := next.value);
      pool := pool.(accepted := next.value, ready := pool.ready + [buffer]);
      r := Accepted(next.value);
    }

    /** deliver, before the exchange. */
    method Take() returns (buffer: Buffer)
      requires Valid() && pool.ready != [] && pool.inflight == None
      modifies this
      ensures Valid() && Carried(pool, config, buffer)
      ensures (pool, buffer) == Taken(old(pool))
    {
      hide Ids, AllIds;
      TakenOk(pool, config);
      buffer := pool.ready[0];
      pool := pool.(ready := pool.ready[1..]);
      assert buffer.credit.Lease().Some?;
      buffer := buffer.(credit := buffer.credit.Lease().value);
      pool := pool.(inflight := Some(buffer.credit.id));
    }

    /** deliver, after it. */
    method Settle(buffer: Buffer, outcome: Option<Receipt>)
      requires Valid() && Carried(pool, config, buffer)
      modifies this
      ensures Valid()
      ensures pool == Settled(old(pool), config, buffer, outcome)
    {
      hide Ids, AllIds;
      SettledOk(pool, config, buffer, outcome);
      pool := pool.(inflight := None);
      if Matches(pool, config, buffer, outcome) {
        assert buffer.credit.Release().Some?;
        pool := pool.(confirmed := buffer.sequence, lastReceipt := outcome,
          free := pool.free + [buffer.(credit := buffer.credit.Release().value)]);
      } else {
        assert buffer.credit.Retry().Some?;
        pool := pool.(retries := SaturatingAdd(pool.retries, 1),
          ready := [buffer.(credit := buffer.credit.Retry().value)] + pool.ready);
      }
    }

    method Close()
      modifies this
      ensures pool == old(pool).(closed := true)
    {
      pool := pool.(closed := true);
    }
  }

  /** A refused encoding gives its credit back. */
  function PutBack(p: Pool, b: Buffer): Pool
    requires b.credit.phase == Reserved
  {
    p.(free := p.free + [b.(credit := b.credit.Cancel().value)])
  }
}
