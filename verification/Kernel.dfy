/** Slot credits and ticket order: admission-kernel/src/lib.rs. */
module Kernel {
  import opened Common

  datatype Phase = Free | Reserved | Ready | Leased

  /** Admission state of one payload buffer; a refused transition yields None and changes nothing. */
  datatype Slot = Slot(id: nat, capacity: nat, len: nat, phase: Phase) {
    predicate Valid() {
      len <= capacity && (phase == Free || phase == Reserved ==> len == 0)
    }

    function Reserve(): Option<Slot> {
      if phase == Free then Some(this.(phase := Reserved)) else None
    }

    function Publish(n: nat): Option<Slot> {
      if phase == Reserved && n <= capacity then Some(this.(phase := Ready, len := n)) else None
    }

    function Lease(): Option<Slot> {
      if phase == Ready then Some(this.(phase := Leased)) else None
    }

    function Cancel(): Option<Slot> {
      if phase == Reserved then Some(this.(phase := Free, len := 0)) else None
    }

    function Retry(): Option<Slot> {
      if phase == Leased then Some(this.(phase := Ready)) else None
    }

    function Release(): Option<Slot> {
      if phase == Leased then Some(this.(phase := Free, len := 0)) else None
    }
  }

  /** Tickets issued so far and the next one that may leave. */
  datatype Fifo = Fifo(head: nat, next: nat) {
    function Enqueue(): Option<Fifo> {
      if next == U64_MAX then None else Some(Fifo(head, next + 1))
    }

    function Dequeue(ticket: nat): Option<Fifo> {
      if head < next && ticket == head then Some(Fifo(head + 1, next)) else None
    }
  }

  /** Checked charge against a capacity. */
  function Charge(capacity: nat, used: nat, charge: nat): Option<nat> {
    if used <= capacity && charge <= capacity - used then Some(used + charge) else None
  }

  // ---------------------------------------------------------------- what the kernel promises

  /** The five transitions of a credit and the one that starts it: each legal from one phase alone. */
  datatype Call = ToReserve | ToPublish(n: nat) | ToLease | ToCancel | ToRetry | ToRelease

  /** A refused call leaves the credit as it was. */
  function After(s: Slot, call: Call): Slot {
    var r := match call
      case ToReserve => s.Reserve()
      case ToPublish(n) => s.Publish(n)
      case ToLease => s.Lease()
      case ToCancel => s.Cancel()
      case ToRetry => s.Retry()
      case ToRelease => s.Release();
    if r.Some? then r.value else s
  }

  /** Each transition is taken exactly from its phase, a length exactly within the capacity, and gives exactly the next phase and length. */
  lemma SlotContracts(s: Slot, n: nat)
    requires s.Valid()
    ensures s.Reserve() == if s.phase == Free then Some(Slot(s.id, s.capacity, 0, Reserved)) else None
    ensures s.Publish(n) == if s.phase == Reserved && n <= s.capacity then Some(Slot(s.id, s.capacity, n, Ready)) else None
    ensures s.Lease() == if s.phase == Ready then Some(Slot(s.id, s.capacity, s.len, Leased)) else None
    ensures s.Cancel() == if s.phase == Reserved then Some(Slot(s.id, s.capacity, 0, Free)) else None
    ensures s.Retry() == if s.phase == Leased then Some(Slot(s.id, s.capacity, s.len, Ready)) else None
    ensures s.Release() == if s.phase == Leased then Some(Slot(s.id, s.capacity, 0, Free)) else None
  {
  }

  function Lived(s: Slot, calls: seq<Call>): Slot {
    if calls == [] then s else After(Lived(s, calls[..|calls| - 1]), calls[|calls| - 1])
  }

  /** Whatever is called on a new credit: it stays itself, and holds at most its capacity, nothing while it is free or reserved. */
  lemma {:induction false} CreditLives(id: nat, capacity: nat, calls: seq<Call>)
    ensures var s := Lived(Slot(id, capacity, 0, Free), calls);
      s.id == id && s.capacity == capacity && s.len <= capacity && (s.phase == Free || s.phase == Reserved ==> s.len == 0)
  {
    if calls != [] {
      CreditLives(id, capacity, calls[..|calls| - 1]);
    }
  }

  /** Tickets: one more at the back until the counter is used up, and only the front one leaves. */
  lemma FifoContracts(f: Fifo, ticket: nat)
    requires f.head <= f.next <= U64_MAX
    ensures f.Enqueue() == if f.next < U64_MAX then Some(Fifo(f.head, f.next + 1)) else None
    ensures f.Dequeue(ticket) == if f.head < f.next && ticket == f.head then Some(Fifo(f.head + 1, f.next)) else None
    ensures f.Dequeue(ticket).Some? ==> f.Dequeue(ticket).value.head <= f.Dequeue(ticket).value.next
  {
  }

  /** A charge succeeds exactly if the sum stays within the capacity, and is then the sum. */
  lemma ChargeContract(capacity: nat, used: nat, charge: nat)
    ensures Charge(capacity, used, charge) == if used + charge <= capacity then Some(used + charge) else None
  {
  }
}
