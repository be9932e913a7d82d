/** The production record store, fabric/src/spindle/custody.rs: SQLite transactions are atomic updates. */
module Custody {
  import opened Common

  type Text = seq<char>

  datatype Identity = Identity(producer: Text, generation: Text, sequence: nat)

  datatype Receipt = Receipt(id: nat, identity: Identity, duplicate: bool)

  datatype Checkpoint = Checkpoint(source: Text, position: Text)

  /** One row of the records table; its id is its place plus one, for nothing is ever deleted. */
  datatype Row = Row(identity: Identity, payload: seq<byte>)

  datatype Tables = Tables(rows: seq<Row>, checkpoints: map<Text, Text>)

  datatype Refusal = Malformed | BadCheckpoint | Conflict | StorageFull

  /** `observation::decode`, as far as the store looks: the identity of a well-formed observation. */
  type Decoder = seq<byte> -> Option<Identity>

  predicate BadPosition(cp: Option<Checkpoint>) {
    cp.Some? && (cp.value.source == [] || |cp.value.source| > 256 || |cp.value.position| > 8192)
  }

  /** The first row with this identity, counting from `from`. */
  function Find(rows: seq<Row>, identity: Identity): (r: Option<nat>)
    ensures r.Some? ==> r.value < |rows| && rows[r.value].identity == identity
    ensures r == None ==> forall k :: 0 <= k < |rows| ==> rows[k].identity != identity
  {
    if rows == [] then None
    else if rows[0].identity == identity then Some(0)
    else match Find(rows[1..], identity)
      case None => None
      case Some(k) => Some(k + 1)
  }

  /** `refuse` stands for the quota check and every error of the transaction. */
  function Submitted(t: Tables, decode: Decoder, bytes: seq<byte>, cp: Option<Checkpoint>, refuse: bool)
    : (Tables, Result<Receipt, Refusal>)
  {
    match decode(bytes)
    case None => (t, Err(Malformed))
    case Some(identity) =>
      if BadPosition(cp) then (t, Err(BadCheckpoint))
      else match Find(t.rows, identity)
        case Some(k) =>
          if t.rows[k].payload != bytes then (t, Err(Conflict)) else (t, Ok(Receipt(k + 1, identity, true)))
        case None =>
          if refuse then (t, Err(StorageFull))
          else
            var checkpoints := if cp.Some? then t.checkpoints[cp.value.source := cp.value.position] else t.checkpoints;
            (Tables(t.rows + [Row(identity, bytes)], checkpoints), Ok(Receipt(|t.rows| + 1, identity, false)))
  }

  /** The query: `SELECT id, payload .. WHERE id > after ORDER BY id LIMIT min(limit, 1)`. */
  function ReadRaw(t: Tables, after: nat, limit: nat): seq<(nat, seq<byte>)> {
    if limit == 0 || after >= |t.rows| then [] else [(after + 1, t.rows[after].payload)]
  }

  const MAX_PAYLOAD := 65536

  /** `read_raw`: the row, its payload bounded and decoded once more before it is handed out. */
  function ReadPage(t: Tables, decode: Decoder, after: nat, limit: nat): Option<seq<(nat, seq<byte>)>> {
    var page := ReadRaw(t, after, limit);
    if page != [] && (|page[0].1| > MAX_PAYLOAD || decode(page[0].1) == None) then None else Some(page)
  }

  // ---------------------------------------------------------------- what the store keeps

  /** Identities are unique, and every payload decodes to the identity it is filed under. */
  ghost predicate TablesOk(t: Tables, decode: Decoder) {
    && (forall j, k :: 0 <= j < k < |t.rows| ==> t.rows[j].identity != t.rows[k].identity)
    && (forall k :: 0 <= k < |t.rows| ==> decode(t.rows[k].payload) == Some(t.rows[k].identity))
  }

  class Store {
    var tables: Tables
    const decode: Decoder

    ghost predicate Valid()
      reads this
    {
      TablesOk(tables, decode)
    }

    constructor (decode: Decoder)
      ensures Valid() && tables == Tables([], map[]) && this.decode == decode
    {
      this.decode := decode;
      tables := Tables([], map[]);
    }

    /** Publishes the record and moves the checkpoint together, or neither. */
    method Submit(bytes: seq<byte>, cp: Option<Checkpoint>, refuse: bool) returns (r: Result<Receipt, Refusal>)
      requires Valid()
      modifies this
      ensures Valid()
      ensures (tables, r) == Submitted(old(tables), decode, bytes, cp, refuse)
    {
      var observation := decode(bytes);
      if observation == None {
        return Err(Malformed);
      }
      if BadPosition(cp) {
        return Err(BadCheckpoint);
      }
      var identity := observation.value;
      var existing := Find(tables.rows, identity);
      if existing.Some? {
        if tables.rows[existing.value].payload != bytes {
          return Err(Conflict);
        }
        return Ok(Receipt(existing.value + 1, identity, true));
      }
      if refuse {
        return Err(StorageFull);
      }
      var id := |tables.rows| + 1;
      tables := tables.(rows := tables.rows + [Row(identity, bytes)]);
      if cp.Some? {
        tables := tables.(checkpoints := tables.checkpoints[cp.value.source := cp.value.position]);
      }
      r := Ok(Receipt(id, identity, false));
    }
  }

  lemma FindUnique(rows: seq<Row>, k: nat)
    requires k < |rows| && forall i, j :: 0 <= i < j < |rows| ==> rows[i].identity != rows[j].identity
    ensures Find(rows, rows[k].identity) == Some(k)
  {
    var r := Find(rows, rows[k].identity);
    assert rows[k].identity == rows[k].identity;
  }

  /**
  A receipt is for good: whatever is submitted in between, the same bytes again get the same id, marked as a
  duplicate, and change nothing; other bytes under that identity are a conflict.
  */
  lemma ReceiptsLast(t: Tables, decode: Decoder, bytes: seq<byte>, cp: Option<Checkpoint>, refuse: bool, later: Tables,
                     again: seq<byte>, cp': Option<Checkpoint>, refuse': bool)
    requires TablesOk(t, decode) && TablesOk(later, decode)
    requires Submitted(t, decode, bytes, cp, refuse).1.Ok?
    requires Submitted(t, decode, bytes, cp, refuse).0.rows <= later.rows
    requires decode(again) == decode(bytes) && !BadPosition(cp')
    ensures var receipt := Submitted(t, decode, bytes, cp, refuse).1.value;
            Submitted(later, decode, again, cp', refuse')
            == (later, if again == bytes then Ok(receipt.(duplicate := true)) else Err(Conflict))
  {
    var (t', r) := Submitted(t, decode, bytes, cp, refuse);
    assert later.rows[r.value.id - 1] == t'.rows[r.value.id - 1];
    FindUnique(later.rows, r.value.id - 1);
  }

  /** Submissions only ever append; a refused or repeated one leaves records and checkpoints alone. */
  lemma SubmitAppends(t: Tables, decode: Decoder, bytes: seq<byte>, cp: Option<Checkpoint>, refuse: bool)
    requires TablesOk(t, decode)
    ensures var (t', r) := Submitted(t, decode, bytes, cp, refuse);
            && TablesOk(t', decode)
            && t.rows <= t'.rows
            && (r.Ok? && !r.value.duplicate <==> t' != t)
            && (t' != t ==> |t'.rows| == |t.rows| + 1 && t'.rows[|t.rows|].payload == bytes)
  {
    var (t', r) := Submitted(t, decode, bytes, cp, refuse);
    if r.Ok? && !r.value.duplicate {
      assert |t'.rows| != |t.rows|;
    }
  }

  /** A checkpoint of a named source within 256 and 8192 characters. */
  predicate Placeable(cp: Option<Checkpoint>) {
    cp.Some? ==> 1 <= |cp.value.source| <= 256 && |cp.value.position| <= 8192
  }

  ghost predicate Holds(t: Tables, identity: Identity) {
    exists k :: 0 <= k < |t.rows| && t.rows[k].identity == identity
  }

  /**
  What each answer means. What does not decode, and a checkpoint out of bounds, are refused as such; an identity that is
  stored gets its own receipt again for the same bytes and a conflict for any others; a new one is refused only when there
  is no room, and otherwise stored last, under the next number, together with its checkpoint.
  */
  lemma SubmitAnswers(t: Tables, decode: Decoder, bytes: seq<byte>, cp: Option<Checkpoint>, refuse: bool)
    requires TablesOk(t, decode)
    ensures var (t', r) := Submitted(t, decode, bytes, cp, refuse);
      && (r == Err(Malformed) <==> decode(bytes) == None)
      && (r == Err(BadCheckpoint) <==> decode(bytes).Some? && !Placeable(cp))
      && (decode(bytes).Some? && Placeable(cp) ==>
            var row := Row(decode(bytes).value, bytes);
            && (row in t.rows <==> r.Ok? && r.value.duplicate)
            && (r.Ok? && r.value.duplicate ==>
                  t' == t && r.value.identity == row.identity && 1 <= r.value.id <= |t.rows| && t.rows[r.value.id - 1] == row)
            && (r == Err(Conflict) <==> Holds(t, row.identity) && row !in t.rows)
            && (r == Err(StorageFull) <==> !Holds(t, row.identity) && refuse)
            && (!Holds(t, row.identity) && !refuse ==>
                  && r == Ok(Receipt(|t.rows| + 1, row.identity, false)) && t'.rows == t.rows + [row]
                  && t'.checkpoints == if cp.Some? then t.checkpoints[cp.value.source := cp.value.position] else t.checkpoints))
      && (r.Err? ==> t' == t)
  {
    if decode(bytes).Some? {
      var identity := decode(bytes).value;
      var k := Find(t.rows, identity);
      if k.Some? {
        assert forall j :: 0 <= j < |t.rows| && t.rows[j].identity == identity ==> j == k.value;
      }
    }
  }
}
