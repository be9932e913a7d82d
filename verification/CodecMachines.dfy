/** The encoder and the reader as the source runs them, in place, against the functions of Codec and CodecFrames. */
module CodecMachines {
  import opened Common
  import opened Json
  import opened Observations
  import opened Binary
  import opened Codec
  import opened CodecFrames

  // ---------------------------------------------------------------- the dictionary being gathered

  /** The id map holds exactly the list, each entry under its position. */
  ghost predicate Represents(ids: map<Bytes, nat>, list: seq<Bytes>) {
    && |ids| == |list|
    && (forall i :: 0 <= i < |list| ==> list[i] in ids && ids[list[i]] == i)
    && (forall s :: s in ids ==> ids[s] < |list| && list[ids[s]] == s)
  }

  lemma {:induction false} IndexOf(list: seq<Bytes>, s: Bytes, k: nat)
    requires k < |list| && list[k] == s && forall j :: 0 <= j < k ==> list[j] != s
    ensures Index(list, s) == Some(k)
  {
    if k > 0 {
      IndexOf(list[1..], s, k - 1);
    }
  }

  lemma LookupIsIndex(ids: map<Bytes, nat>, list: seq<Bytes>, s: Bytes)
    requires Represents(ids, list)
    ensures Index(list, s) == if s in ids then Some(ids[s]) else None
  {
    if s in ids {
      IndexOf(list, s, ids[s]);
    }
  }

  class Interner {
    var ids: map<Bytes, nat>
    var bytes: nat
    ghost var list: seq<Bytes>

    ghost predicate Valid()
      reads this
    {
      Represents(ids, list) && bytes == |Concat(list)|
    }

    constructor ()
      ensures Valid() && list == []
    {
      ids, bytes, list := map[], 0, [];
    }

    method Gather(v: Value, key: Bytes)
      requires Valid()
      modifies this
      ensures Valid() && list == Gathered(v, key, old(list))
      decreases v
    {
      match v
      case String(s) =>
        if Interned(key) && !EnumKey(key) && s !in ids && |ids| < MAX_ENTRIES && bytes + |s| <= MAX_DICTIONARY {
          ConcatSnoc(list, s);
          var id := |ids|;
          bytes := bytes + |s|;
          ids := ids[s := id];
          list := list + [s];
        }
      case Object(fields) =>
        assert fields[0..] == fields;
        for i := 0 to |fields|
          invariant Valid() && GatheredFields(fields[i..], list) == GatheredFields(fields, old(list))
        {
          assert fields[i..][1..] == fields[i + 1..];
          Gather(fields[i].value, fields[i].key);
        }
      case Array(items) =>
        assert items[0..] == items;
        for i := 0 to |items|
          invariant Valid() && GatheredItems(items[i..], key, list) == GatheredItems(items, key, old(list))
        {
          assert items[i..][1..] == items[i + 1..];
          Gather(items[i], key);
        }
      case _ =>
    }

    method GatherAll(values: seq<Value>)
      requires Valid() && list == []
      modifies this
      ensures Valid() && list == GatheredItems(values, [], [])
    {
      hide Represents, Concat, Gathered;
      assert values[0..] == values;
      for i := 0 to |values|
        invariant Valid() && GatheredItems(values[i..], [], list) == GatheredItems(values, [], [])
      {
        assert values[i..][1..] == values[i + 1..];
        Gather(values[i], []);
      }
    }

    /** The entries sorted by id. */
    method Ordered() returns (r: seq<Bytes>)
      requires Valid()
      ensures r == list
    {
      r := [];
      for id := 0 to |ids|
        invariant |r| == id && r == list[..id]
      {
        assert list[id] in ids;
        var s :| s in ids && ids[s] == id;
        r := r + [s];
      }
    }
  }

  // ---------------------------------------------------------------- the output buffer

  class Buffer {
    var out: Bytes

    constructor (start: Bytes)
      ensures out == start
    {
      out := start;
    }

    method Put32(n: nat)
      modifies this
      ensures out == old(out) + Le32(n)
    {
      out := out + Le32(n);
    }

    method Text(s: Bytes)
      modifies this
      ensures out == old(out) + EncString(s)
    {
      Put32(|s|);
      out := out + s;
    }

    method Number(n: Num)
      modifies this
      ensures out == old(out) + [EncNum(n).tag] + EncNum(n).body
    {
      match n
      case PosInt(x) =>
        if x <= 255 {
          out := out + [11, x];
        } else {
          out := out + [3];
          out := out + Le(x, 8);
        }
      case NegInt(m) =>
        out := out + [4];
        out := out + Le(Unsigned(m), 8);
      case Float(bits) =>
        out := out + [5];
        out := out + Le(bits, 8);
    }

    method Interned(s: Bytes, key: Bytes, ids: map<Bytes, nat>, ghost list: seq<Bytes>)
      requires Represents(ids, list)
      modifies this
      ensures out == old(out) + [EncText(s, key, list).tag] + EncText(s, key, list).body
    {
      LookupIsIndex(ids, list, s);
      hide Enums, EncString, Le, Represents, Index;
      var code := EnumCode(s, key);
      if code.Some? {
        out := out + [10];
        out := out + [code.value];
      } else if Codec.Interned(key) && s in ids {
        out := out + [7];
        out := out + Le(ids[s] % 0x1_0000, 2);
      } else {
        out := out + [6];
        Text(s);
      }
    }

    method Value(v: Json.Value, key: Bytes, ids: map<Bytes, nat>, ghost list: seq<Bytes>)
      requires Represents(ids, list)
      modifies this
      ensures out == old(out) + Enc(v, key, list)
      decreases v
    {
      hide EncNum, EncText, Represents, Le32, EncKey, EncItems, EncFields, Represents;
      ghost var start := out;
      match v
      case Null => out := out + [0];
      case Bool(b) => out := out + [if b then 2 else 1];
      case Number(n) =>
        Number(n);
        assert out == start + ([EncNum(n).tag] + EncNum(n).body);
      case String(s) =>
        Interned(s, key, ids, list);
        assert out == start + ([EncText(s, key, list).tag] + EncText(s, key, list).body);
      case Array(items) =>
        out := out + [8];
        Put32(|items|);
        Items(items, key, ids, list);
        assert out == start + ([8] + Le32(|items|) + EncItems(items, key, list));
      case Object(fields) =>
        out := out + [9];
        Put32(|fields|);
        Fields(fields, ids, list);
        assert out == start + ([9] + Le32(|fields|) + EncFields(fields, list));
    }

    method Items(items: seq<Json.Value>, key: Bytes, ids: map<Bytes, nat>, ghost list: seq<Bytes>)
      requires Represents(ids, list)
      modifies this
      ensures out == old(out) + EncItems(items, key, list)
      decreases items
    {
      hide Represents, Enc;
      assert items[0..] == items;
      for i := 0 to |items|
        invariant out + EncItems(items[i..], key, list) == old(out) + EncItems(items, key, list)
      {
        assert items[i..][1..] == items[i + 1..];
        ghost var before, this' := out, Enc(items[i], key, list);
        Value(items[i], key, ids, list);
        assert before + (this' + EncItems(items[i + 1..], key, list)) == out + EncItems(items[i + 1..], key, list);
      }
      assert out + [] == out;
    }

    method Fields(fields: seq<Field>, ids: map<Bytes, nat>, ghost list: seq<Bytes>)
      requires Represents(ids, list)
      modifies this
      ensures out == old(out) + EncFields(fields, list)
      decreases fields
    {
      hide Represents, Enc, EncKey;
      assert fields[0..] == fields;
      for i := 0 to |fields|
        invariant out + EncFields(fields[i..], list) == old(out) + EncFields(fields, list)
      {
        assert fields[i..][1..] == fields[i + 1..];
        ghost var before, f := out, fields[i];
        Key(fields[i].key);
        Value(fields[i].value, fields[i].key, ids, list);
        assert out == before + EncKey(f.key) + Enc(f.value, f.key, list);
        assert before + (EncKey(f.key) + Enc(f.value, f.key, list) + EncFields(fields[i + 1..], list))
            == out + EncFields(fields[i + 1..], list);
      }
      assert out + [] == out;
    }

    method Key(key: Bytes)
      modifies this
      ensures out == old(out) + EncKey(key)
    {
      hide EncString, Keys, KeyCode;
      var code := KeyCode(key);
      if code != 0 {
        out := out + [code];
      } else {
        out := out + [0];
        Text(key);
      }
    }
  }

  /** `encode` for rows and columns. */
  method Encode(columns: bool, records: seq<Observation>, lib: Library) returns (r: Option<Bytes>)
    ensures r.Some? <==> Canonical(records, lib) && |Frame(columns, records)| <= MAX_FRAME_BYTES
    ensures r.Some? ==> r.value == Frame(columns, records)
  {
    hide Canonical, Enc, EncItems, EncColumns, EncStrings, Columns, Gathered, GatheredItems, Magic, Le32, Represents, Concat;
    if !Canonical(records, lib) {
      return None;
    }
    var buffer := new Buffer(Magic() + [if columns then 2 else 1]);
    var values := Values(records);
    var dict := new Interner();
    if columns {
      dict.GatherAll(values);
    }
    ghost var list := dict.list;
    buffer.Put32(|dict.ids|);
    assert |dict.ids| == |list| by {
      SameSize(dict.ids, list);
    }
    var ordered := dict.Ordered();
    WriteStrings(buffer, ordered);
    buffer.Put32(|records|);
    if columns {
      WriteColumns(buffer, values, dict.ids, list);
    } else {
      buffer.Items(values, [], dict.ids, list);
    }
    assert buffer.out == Frame(columns, records);
    if |buffer.out| > MAX_FRAME_BYTES {
      return None;
    }
    return Some(buffer.out);
  }

  lemma SameSize(ids: map<Bytes, nat>, list: seq<Bytes>)
    requires Represents(ids, list)
    ensures |ids| == |list|
  {
  }

  method WriteStrings(buffer: Buffer, strings: seq<Bytes>)
    modifies buffer
    ensures buffer.out == old(buffer.out) + EncStrings(strings)
  {
    hide EncString;
    assert strings[0..] == strings;
    for i := 0 to |strings|
      invariant buffer.out + EncStrings(strings[i..]) == old(buffer.out) + EncStrings(strings)
    {
      assert strings[i..][1..] == strings[i + 1..];
      ghost var before := buffer.out;
      buffer.Text(strings[i]);
      assert before + (EncString(strings[i]) + EncStrings(strings[i + 1..])) == buffer.out + EncStrings(strings[i + 1..]);
    }
    assert buffer.out + [] == buffer.out;
  }

  method WriteColumns(buffer: Buffer, values: seq<Value>, ids: map<Bytes, nat>, ghost list: seq<Bytes>)
    requires Represents(ids, list)
    modifies buffer
    ensures buffer.out == old(buffer.out) + EncColumns(values, Columns(), list)
  {
    hide Represents, Enc, At, Columns;
    var keys := Columns();
    assert keys[0..] == keys;
    for j := 0 to |keys|
      invariant buffer.out + EncColumns(values, keys[j..], list) == old(buffer.out) + EncColumns(values, keys, list)
    {
      assert keys[j..][1..] == keys[j + 1..] && keys[j..][0] == keys[j];
      ghost var before := buffer.out;
      WriteColumn(buffer, values, keys[j], ids, list);
      assert before + (EncColumn(values, keys[j], list) + EncColumns(values, keys[j + 1..], list))
          == buffer.out + EncColumns(values, keys[j + 1..], list);
    }
    assert buffer.out + [] == buffer.out;
  }

  method WriteColumn(buffer: Buffer, values: seq<Value>, key: Bytes, ids: map<Bytes, nat>, ghost list: seq<Bytes>)
    requires Represents(ids, list)
    modifies buffer
    ensures buffer.out == old(buffer.out) + EncColumn(values, key, list)
  {
    hide Represents, Enc, At;
    assert values[0..] == values;
    for i := 0 to |values|
      invariant buffer.out + EncColumn(values[i..], key, list) == old(buffer.out) + EncColumn(values, key, list)
    {
      assert values[i..][1..] == values[i + 1..];
      ghost var before, this' := buffer.out, Enc(At(values[i], key), key, list);
      buffer.Value(At(values[i], key), key, ids, list);
      assert before + (this' + EncColumn(values[i + 1..], key, list)) == buffer.out + EncColumn(values[i + 1..], key, list);
    }
    assert buffer.out + [] == buffer.out;
  }

  // ---------------------------------------------------------------- the reader

  /** A step's result and new position are the specification's, or both refuse. */
  ghost predicate Follows<T(!new)>(r: Option<T>, c: Cursor, spec: Option<Read<T>>) {
    match spec
    case None => r == None
    case Some(x) => r == Some(x.value) && c == x.after
  }

  class Reader {
    const b: Bytes
    var at: nat
    var expanded: nat
    var nodes: nat

    ghost predicate Valid()
      reads this
    {
      at <= |b|
    }

    ghost function Cur(): Cursor
      requires Valid()
      reads this
    {
      Cursor(b[at..], expanded, nodes)
    }

    constructor (b: Bytes, at: nat)
      requires at <= |b|
      ensures Valid() && Cur() == Cursor(b[at..], 0, MAX_INPUT)
    {
      this.b := b;
      this.at := at;
      expanded := 0;
      nodes := MAX_INPUT;
    }

    method Take(n: nat) returns (r: Option<Bytes>)
      requires Valid()
      modifies this
      ensures Valid() && Follows(r, Cur(), Codec.Take(old(Cur()), n))
    {
      var end := at + n;
      if end > |b| {
        return None;
      }
      var s := b[at..end];
      assert s == b[at..][..n] && b[end..] == b[at..][n..];
      at := end;
      return Some(s);
    }

    method Integer(width: nat) returns (r: Option<nat>)
      requires Valid()
      modifies this
      ensures Valid() && Follows(r, Cur(), TakeInt(old(Cur()), width))
    {
      hide UnLe, Codec.Take;
      var bytes :- Take(width);
      return Some(UnLe(bytes));
    }

    method Charge(n: nat) returns (ok: bool)
      requires Valid()
      modifies this
      ensures Valid() && b[at..] == old(b[at..]) && nodes == old(nodes)
      ensures ok == Codec.Charge(old(Cur()), n).Some? && (ok ==> Cur() == Codec.Charge(old(Cur()), n).value)
    {
      expanded := expanded + n;
      ok := expanded <= MAX_INPUT;
    }

    method Text(remaining: nat) returns (r: Option<Bytes>)
      requires Valid()
      modifies this
      ensures Valid() && Follows(r, Cur(), ReadString(old(Cur()), remaining))
    {
      hide Utf8, TakeInt, Codec.Take;
      var n :- Integer(4);
      if n > remaining {
        return None;
      }
      var ok := Charge(n);
      if !ok {
        return None;
      }
      var s :- Take(n);
      if !Utf8(s) {
        return None;
      }
      return Some(s);
    }

    method Entry(table: seq<Bytes>, id: nat) returns (r: Option<Bytes>)
      requires Valid()
      modifies this
      ensures Valid() && Follows(r, Cur(), ReadEntry(old(Cur()), table, id))
    {
      if id >= |table| {
        return None;
      }
      var ok := Charge(|table[id]|);
      return if ok then Some(table[id]) else None;
    }

    method Key() returns (r: Option<Bytes>)
      requires Valid()
      modifies this
      ensures Valid() && Follows(r, Cur(), ReadKey(old(Cur())))
    {
      hide ReadString, ReadEntry, TakeInt, Keys;
      var id :- Integer(1);
      if id == 0 {
        r := Text(MAX_INPUT);
      } else {
        r := Entry(Keys(), id - 1);
      }
    }

    method Scalar(code: nat, dict: seq<Bytes>) returns (r: Option<Value>)
      requires Valid()
      modifies this
      ensures Valid() && Follows(r, Cur(), ReadScalar(old(Cur()), code, dict))
    {
      hide ReadString, ReadEntry, TakeInt, Enums, Finite;
      match code
      case 0 => return Some(Null);
      case 1 => return Some(Bool(false));
      case 2 => return Some(Bool(true));
      case 11 =>
        var x :- Integer(1);
        return Some(Number(PosInt(x)));
      case 3 =>
        var x :- Integer(8);
        return Some(Number(PosInt(x)));
      case 4 =>
        var x :- Integer(8);
        return Some(Number(FromSigned(Signed(x))));
      case 5 =>
        var x :- Integer(8);
        return if Finite(x) then Some(Number(Float(x))) else None;
      case 10 =>
        var id :- Integer(1);
        var s :- Entry(Enums(), id);
        return Some(String(s));
      case 6 =>
        var s :- Text(MAX_INPUT);
        return Some(String(s));
      case 7 =>
        var id :- Integer(2);
        var s :- Entry(dict, id);
        return Some(String(s));
      case _ => return None;
    }

    method Value(dict: seq<Bytes>, depth: nat) returns (r: Option<Value>)
      requires Valid()
      modifies this
      ensures Valid() && Follows(r, Cur(), ReadValue(old(Cur()), dict, depth))
      decreases Max(READER_DEPTH + 1 - depth, 0)
    {
      hide ReadScalar, TakeInt, Insert, Get, ReadKey;
      if depth > READER_DEPTH || nodes == 0 {
        return None;
      }
      nodes := nodes - 1;
      var code :- Integer(1);
      if code == 8 {
        var n :- Integer(4);
        if n > 4096 || n > nodes {
          return None;
        }
        ghost var start := Cur();
        var items := [];
        for i := 0 to n
          invariant Valid()
          invariant ReadItems(start, dict, depth + 1, n, []) == ReadItems(Cur(), dict, depth + 1, n - i, items)
        {
          var v :- Value(dict, depth + 1);
          items := items + [v];
        }
        return Some(Array(items));
      } else if code == 9 {
        var n :- Integer(4);
        if n > 64 || n > nodes {
          return None;
        }
        ghost var start := Cur();
        var fields := [];
        for i := 0 to n
          invariant Valid()
          invariant ReadFields(start, dict, depth + 1, n, []) == ReadFields(Cur(), dict, depth + 1, n - i, fields)
        {
          var k :- Key();
          var v :- Value(dict, depth + 1);
          if Get(fields, k).Some? {
            return None;
          }
          fields := Insert(fields, k, v);
        }
        return Some(Object(fields));
      } else {
        r := Scalar(code, dict);
      }
    }

    method Dictionary() returns (r: Option<seq<Bytes>>)
      requires Valid()
      modifies this
      ensures Valid() && Follows(r, Cur(), ReadDictionary(old(Cur())))
    {
      hide ReadString, TakeInt;
      var n :- Integer(4);
      if n > MAX_ENTRIES {
        return None;
      }
      var start, dict := expanded, [];
      ghost var c := Cur();
      for i := 0 to n
        invariant Valid() && start <= expanded <= start + MAX_DICTIONARY
        invariant ReadDict(c, start, n, []) == ReadDict(Cur(), start, n - i, dict)
      {
        var s :- Text(MAX_DICTIONARY - (expanded - start));
        dict := dict + [s];
      }
      expanded := 0;
      return Some(dict);
    }

    method Rows(count: nat, dict: seq<Bytes>) returns (r: Option<seq<Json.Value>>)
      requires Valid()
      modifies this
      ensures Valid() && Follows(r, Cur(), ReadItems(old(Cur()), dict, 0, count, []))
    {
      hide ReadValue;
      ghost var c := Cur();
      var values := [];
      for i := 0 to count
        invariant Valid()
        invariant ReadItems(c, dict, 0, count, []) == ReadItems(Cur(), dict, 0, count - i, values)
      {
        var v :- Value(dict, 0);
        values := values + [v];
      }
      return Some(values);
    }

    /** One pass over the objects, putting the next value under the key in each. */
    method Column(key: Bytes, dict: seq<Bytes>, objects: seq<seq<Field>>) returns (r: Option<seq<seq<Field>>>)
      requires Valid()
      modifies this
      ensures Valid() && Follows(r, Cur(), ReadColumn(old(Cur()), dict, key, objects))
    {
      hide ReadValue, Put;
      ghost var c := Cur();
      var rows := objects;
      assert objects[0..] == objects && rows[..0] == [];
      AheadNothing(ReadColumn(c, dict, key, objects));
      for i := 0 to |objects|
        invariant Valid() && |rows| == |objects| && rows[i..] == objects[i..]
        invariant ReadColumn(c, dict, key, objects) == Ahead(rows[..i], ReadColumn(Cur(), dict, key, objects[i..]))
      {
        assert objects[i..][0] == rows[i] && objects[i..][1..] == objects[i + 1..];
        ghost var was := rows;
        ghost var before := Cur();
        var v :- Value(dict, 0);
        rows := rows[i := Put(rows[i], key, v)];
        assert rows[..i + 1] == was[..i] + [Put(objects[i], key, v)];
        assert rows[i + 1..] == was[i + 1..] == objects[i..][1..];
        ghost var more := ReadColumn(Cur(), dict, key, objects[i + 1..]);
        assert ReadColumn(before, dict, key, objects[i..]) == Ahead([Put(objects[i], key, v)], more);
        AheadTwice(was[..i], [Put(objects[i], key, v)], more);
      }
      assert rows[..|objects|] == rows && rows + [] == rows;
      return Some(rows);
    }

    method Columnar(count: nat, dict: seq<Bytes>) returns (r: Option<seq<Json.Value>>)
      requires Valid()
      modifies this
      ensures Valid() && Follows(r, Cur(), ReadBody(old(Cur()), true, count, dict))
    {
      hide ReadColumn, Columns;
      ghost var c := Cur();
      var rows := Blank(count);
      var keys := Columns();
      assert keys[0..] == keys;
      for j := 0 to |keys|
        invariant Valid()
        invariant ReadColumns(c, dict, keys, Blank(count)) == ReadColumns(Cur(), dict, keys[j..], rows)
      {
        assert keys[j..][0] == keys[j] && keys[j..][1..] == keys[j + 1..];
        rows :- Column(keys[j], dict, rows);
      }
      return Some(Objects(rows));
    }

    method Batch(columns: bool) returns (r: Option<seq<Json.Value>>)
      requires Valid()
      modifies this
      ensures Valid() && Follows(r, Cur(), ReadBatch(old(Cur()), columns))
    {
      hide ReadDictionary, TakeInt, ReadColumns, ReadItems;
      var dict :- Dictionary();
      var count :- Integer(4);
      if count == 0 || count > 32 {
        return None;
      }
      if columns {
        r := Columnar(count, dict);
      } else {
        r := Rows(count, dict);
      }
    }
  }

  /** Rows already done in front of those still to come. */
  ghost function Ahead(done: seq<seq<Field>>, r: Option<Read<seq<seq<Field>>>>): Option<Read<seq<seq<Field>>>> {
    match r
    case None => None
    case Some(x) => Some(Read(done + x.value, x.after))
  }

  lemma AheadNothing(r: Option<Read<seq<seq<Field>>>>)
    ensures Ahead([], r) == r
  {
    if r.Some? {
      assert [] + r.value.value == r.value.value;
    }
  }

  lemma AheadTwice(a: seq<seq<Field>>, b: seq<seq<Field>>, r: Option<Read<seq<seq<Field>>>>)
    ensures Ahead(a, Ahead(b, r)) == Ahead(a + b, r)
  {
    if r.Some? {
      assert a + (b + r.value.value) == a + b + r.value.value;
    }
  }

  /** `decode` for row and column frames. */
  method Decode(bytes: Bytes, lib: Library) returns (r: Option<seq<Observation>>)
    ensures r == DecodeFrame(bytes, lib)
  {
    hide Canonical, Magic, ReadBatch, TakeInt, FromValue;
    if |bytes| > MAX_FRAME_BYTES || |bytes| < |Magic()| || bytes[..|Magic()|] != Magic() {
      return None;
    }
    var reader := new Reader(bytes, |Magic()|);
    var code :- reader.Integer(1);
    if code != 1 && code != 2 {
      return None;
    }
    var values :- reader.Batch(code == 2);
    assert reader.Cur().rest == [] <==> reader.at == |reader.b|;
    if reader.at != |reader.b| {
      return None;
    }
    var records := [];
    assert values[0..] == values;
    assert FromValues(values, lib.fl).Some? ==> [] + FromValues(values, lib.fl).value == FromValues(values, lib.fl).value;
    for i := 0 to |values|
      invariant FromValues(values, lib.fl) == Prepend(records, FromValues(values[i..], lib.fl))
    {
      assert values[i..][0] == values[i] && values[i..][1..] == values[i + 1..];
      var o :- FromValue(values[i], lib.fl);
      if FromValues(values[i + 1..], lib.fl).Some? {
        assert records + ([o] + FromValues(values[i + 1..], lib.fl).value) == records + [o] + FromValues(values[i + 1..], lib.fl).value;
      }
      records := records + [o];
    }
    assert records + [] == records;
    return if Canonical(records, lib) then Some(records) else None;
  }

  ghost function Prepend(records: seq<Observation>, more: Option<seq<Observation>>): Option<seq<Observation>> {
    match more
    case None => None
    case Some(x) => Some(records + x)
  }
}
