/** The row and column codecs: `value`, `gather`, `encode`, `Reader` and `decode` of xtask/src/representation/mod.rs. */
module Codec {
  import opened Common
  import opened Json
  import opened Observations
  import opened Binary

  const MAX_INPUT := 262144
  const MAX_FRAME_BYTES := 1048576
  const MAX_ENTRIES := 1024
  const MAX_DICTIONARY := 65536
  const READER_DEPTH := 24

  function Magic(): (r: Bytes)
    ensures |r| == 31
  {
    B("F11Y-EXPERIMENT-1/fabrico11y-2") + [0]
  }

  function Keys(): (r: seq<Bytes>)
    ensures |r| == 28
  {
    [B("version"), B("registry"), B("identity"), B("producer"), B("generation"), B("sequence"), B("timestamp_ns"),
     B("resource"), B("data"), B("kind"), B("service"), B("operation"), B("duration_ns"), B("status"), B("trace_id"),
     B("agent"), B("run_id"), B("tool"), B("level"), B("message"), B("fields"), B("name"), B("unit"), B("value"),
     B("metric_type"), B("reset"), B("source"), B("reason")]
  }

  function Enums(): (r: seq<Bytes>)
    ensures |r| == 17
  {
    [B("service_request"), B("agent_run"), B("tool_execution"), B("log"), B("json_log"), B("event"), B("metric"), B("gap"),
     B("trace"), B("debug"), B("info"), B("warn"), B("error"), B("ok"), B("cancelled"), B("counter"), B("gauge")]
  }

  function Columns(): (r: seq<Bytes>)
    ensures |r| == 6
  {
    [B("version"), B("registry"), B("identity"), B("timestamp_ns"), B("resource"), B("data")]
  }

  predicate Interned(key: Bytes) {
    key in [B("registry"), B("producer"), B("generation"), B("resource"), B("kind"), B("service"), B("operation"),
            B("status"), B("agent"), B("tool"), B("level"), B("name"), B("unit"), B("metric_type")]
  }

  /** Keys whose strings are usually one of the enumerated names. */
  predicate EnumKey(key: Bytes) {
    key in [B("kind"), B("level"), B("status"), B("metric_type")]
  }

  /** The position of the first occurrence. */
  function Index(table: seq<Bytes>, x: Bytes): (r: Option<nat>)
    ensures r.Some? ==> r.value < |table| && table[r.value] == x
    ensures r.None? ==> x !in table
  {
    if table == [] then None
    else if table[0] == x then Some(0)
    else
      var i :- Index(table[1..], x);
      Some(i + 1)
  }

  // ---------------------------------------------------------------- the dictionary

  /** `gather`: strings under interned keys, in order of first sight, while they fit. The id of an entry is its position. */
  function Gathered(v: Value, key: Bytes, dict: seq<Bytes>): seq<Bytes>
    decreases v, 0
  {
    match v
    case String(s) =>
      if Interned(key) && !EnumKey(key) && s !in dict && |dict| < MAX_ENTRIES && |Concat(dict)| + |s| <= MAX_DICTIONARY
      then dict + [s] else dict
    case Object(fields) => GatheredFields(fields, dict)
    case Array(items) => GatheredItems(items, key, dict)
    case _ => dict
  }

  function GatheredItems(items: seq<Value>, key: Bytes, dict: seq<Bytes>): seq<Bytes>
    decreases items, 0
  {
    if items == [] then dict else GatheredItems(items[1..], key, Gathered(items[0], key, dict))
  }

  function GatheredFields(fields: seq<Field>, dict: seq<Bytes>): seq<Bytes>
    decreases fields, 0
  {
    if fields == [] then dict else GatheredFields(fields[1..], Gathered(fields[0].value, fields[0].key, dict))
  }

  ghost predicate DictOk(dict: seq<Bytes>) {
    && |dict| <= MAX_ENTRIES && |Concat(dict)| <= MAX_DICTIONARY
    && (forall i, j :: 0 <= i < j < |dict| ==> dict[i] != dict[j])
    && (forall i :: 0 <= i < |dict| ==> Utf8(dict[i]))
  }

  // ---------------------------------------------------------------- encoding

  /** A value code and what follows it. */
  datatype Tagged = Tagged(tag: byte, body: Bytes)

  function EncNum(n: Num): (r: Tagged)
    ensures r.tag in {3, 4, 5, 11}
  {
    match n
    case PosInt(x) => if x <= 255 then Tagged(11, [x]) else Tagged(3, Le(x, 8))
    case NegInt(m) => Tagged(4, Le(Unsigned(m), 8))
    case Float(bits) => Tagged(5, Le(bits, 8))
  }

  function EncString(s: Bytes): Bytes {
    Le32(|s|) + s
  }

  function EnumCode(s: Bytes, key: Bytes): (r: Option<byte>)
    ensures r.Some? ==> r.value < |Enums()| && Enums()[r.value] == s
    ensures r.None? ==> !EnumKey(key) || s !in Enums()
  {
    if EnumKey(key) then
      match Index(Enums(), s)
      case Some(i) => Some(i)
      case None => None
    else None
  }

  function EncText(s: Bytes, key: Bytes, dict: seq<Bytes>): (r: Tagged)
    ensures r.tag in {6, 7, 10}
  {
    var code := EnumCode(s, key);
    if code.Some? then Tagged(10, [code.value])
    else
      var id := if Interned(key) then Index(dict, s) else None;
      if id.Some? then Tagged(7, Le(id.value % 0x1_0000, 2)) else Tagged(6, EncString(s))
  }

  /** One more than the position in the key table, or zero. */
  function KeyCode(key: Bytes): (r: byte)
    ensures r != 0 ==> r <= |Keys()| && Keys()[r - 1] == key
    ensures r == 0 ==> key !in Keys()
  {
    match Index(Keys(), key)
    case Some(i) => i + 1
    case None => 0
  }

  function EncKey(key: Bytes): Bytes {
    var code := KeyCode(key);
    if code == 0 then [0] + EncString(key) else [code]
  }

  function Enc(v: Value, key: Bytes, dict: seq<Bytes>): Bytes
    decreases v, 0
  {
    match v
    case Null => [0]
    case Bool(b) => if b then [2] else [1]
    case Number(n) => var t := EncNum(n); [t.tag] + t.body
    case String(s) => var t := EncText(s, key, dict); [t.tag] + t.body
    case Array(items) => [8] + Le32(|items|) + EncItems(items, key, dict)
    case Object(fields) => [9] + Le32(|fields|) + EncFields(fields, dict)
  }

  function EncItems(items: seq<Value>, key: Bytes, dict: seq<Bytes>): Bytes
    decreases items, 0
  {
    if items == [] then [] else Enc(items[0], key, dict) + EncItems(items[1..], key, dict)
  }

  function EncFields(fields: seq<Field>, dict: seq<Bytes>): Bytes
    decreases fields, 0
  {
    if fields == [] then []
    else EncKey(fields[0].key) + Enc(fields[0].value, fields[0].key, dict) + EncFields(fields[1..], dict)
  }

  // ---------------------------------------------------------------- reading

  /** What the reader has left: unread bytes, bytes expanded so far, values it may still make. */
  datatype Cursor = Cursor(rest: Bytes, expanded: nat, nodes: nat)

  datatype Read<+T> = Read(value: T, after: Cursor)

  function Take(c: Cursor, n: nat): Option<Read<Bytes>> {
    if n > |c.rest| then None else Some(Read(c.rest[..n], c.(rest := c.rest[n..])))
  }

  function TakeInt(c: Cursor, width: nat): Option<Read<nat>> {
    var r :- Take(c, width);
    Some(Read(UnLe(r.value), r.after))
  }

  function Charge(c: Cursor, n: nat): Option<Cursor> {
    if c.expanded + n > MAX_INPUT then None else Some(c.(expanded := c.expanded + n))
  }

  function ReadString(c: Cursor, remaining: nat): (r: Option<Read<Bytes>>)
    ensures r.Some? ==> c.expanded <= r.value.after.expanded <= c.expanded + remaining
  {
    var n :- TakeInt(c, 4);
    if n.value > remaining then None
    else
      var charged :- Charge(n.after, n.value);
      var s :- Take(charged, n.value);
      if Utf8(s.value) then Some(s) else None
  }

  /** A table entry, charged for its length. */
  function ReadEntry(c: Cursor, table: seq<Bytes>, id: nat): Option<Read<Bytes>> {
    if id >= |table| then None
    else
      var charged :- Charge(c, |table[id]|);
      Some(Read(table[id], charged))
  }

  function ReadKey(c: Cursor): Option<Read<Bytes>> {
    var id :- TakeInt(c, 1);
    if id.value == 0 then ReadString(id.after, MAX_INPUT) else ReadEntry(id.after, Keys(), id.value - 1)
  }

  /** `Number::from(i64)`: what is not negative is held unsigned. */
  function FromSigned(m: int): Num {
    if m >= 0 then PosInt(m) else NegInt(m)
  }

  function ReadText(c: Cursor, code: nat, dict: seq<Bytes>): Option<Read<Bytes>> {
    match code
    case 10 => var id :- TakeInt(c, 1); ReadEntry(id.after, Enums(), id.value)
    case 6 => ReadString(c, MAX_INPUT)
    case 7 => var id :- TakeInt(c, 2); ReadEntry(id.after, dict, id.value)
    case _ => None
  }

  /** The values that are not arrays or objects, by their code. */
  function ReadScalar(c: Cursor, code: nat, dict: seq<Bytes>): Option<Read<Value>> {
    match code
    case 0 => Some(Read(Null, c))
    case 1 => Some(Read(Bool(false), c))
    case 2 => Some(Read(Bool(true), c))
    case 11 => var x :- TakeInt(c, 1); Some(Read(Number(PosInt(x.value)), x.after))
    case 3 => var x :- TakeInt(c, 8); Some(Read(Number(PosInt(x.value)), x.after))
    case 4 => var x :- TakeInt(c, 8); Some(Read(Number(FromSigned(Signed(x.value))), x.after))
    case 5 =>
      var x :- TakeInt(c, 8);
      if Finite(x.value) then Some(Read(Number(Float(x.value)), x.after)) else None
    case _ => var s :- ReadText(c, code, dict); Some(Read(String(s.value), s.after))
  }

  function ReadValue(c: Cursor, dict: seq<Bytes>, depth: nat): Option<Read<Value>>
    decreases Max(READER_DEPTH + 1 - depth, 0), 0
  {
    if depth > READER_DEPTH || c.nodes == 0 then None
    else
      var code :- TakeInt(c.(nodes := c.nodes - 1), 1);
      if code.value == 8 then
        var n :- TakeInt(code.after, 4);
        if n.value > 4096 || n.value > n.after.nodes then None
        else
          var a :- ReadItems(n.after, dict, depth + 1, n.value, []);
          Some(Read(Array(a.value), a.after))
      else if code.value == 9 then
        var n :- TakeInt(code.after, 4);
        if n.value > 64 || n.value > n.after.nodes then None
        else
          var m :- ReadFields(n.after, dict, depth + 1, n.value, []);
          Some(Read(Object(m.value), m.after))
      else ReadScalar(code.after, code.value, dict)
  }

  function ReadItems(c: Cursor, dict: seq<Bytes>, depth: nat, n: nat, items: seq<Value>): Option<Read<seq<Value>>>
    decreases Max(READER_DEPTH + 1 - depth, 0), n + 1
  {
    if n == 0 then Some(Read(items, c))
    else
      var v :- ReadValue(c, dict, depth);
      ReadItems(v.after, dict, depth, n - 1, items + [v.value])
  }

  function ReadFields(c: Cursor, dict: seq<Bytes>, depth: nat, n: nat, fields: seq<Field>): Option<Read<seq<Field>>>
    decreases Max(READER_DEPTH + 1 - depth, 0), n + 1
  {
    if n == 0 then Some(Read(fields, c))
    else
      var k :- ReadKey(c);
      var v :- ReadValue(k.after, dict, depth);
      if Get(fields, k.value).Some? then None
      else ReadFields(v.after, dict, depth, n - 1, Insert(fields, k.value, v.value))
  }

  // ---------------------------------------------------------------- what one value costs

  function Nodes(v: Value): (r: nat)
    ensures r >= 1
    decreases v, 0
  {
    match v
    case Array(items) => 1 + NodesItems(items)
    case Object(fields) => 1 + NodesFields(fields)
    case _ => 1
  }

  function NodesItems(items: seq<Value>): (r: nat)
    ensures r >= |items|
    decreases items, 0
  {
    if items == [] then 0 else Nodes(items[0]) + NodesItems(items[1..])
  }

  function NodesFields(fields: seq<Field>): (r: nat)
    ensures r >= |fields|
    decreases fields, 0
  {
    if fields == [] then 0 else Nodes(fields[0].value) + NodesFields(fields[1..])
  }

  /** Bytes of strings and keys. */
  function Expands(v: Value): nat
    decreases v, 0
  {
    match v
    case String(s) => |s|
    case Array(items) => ExpandsItems(items)
    case Object(fields) => ExpandsFields(fields)
    case _ => 0
  }

  function ExpandsItems(items: seq<Value>): nat
    decreases items, 0
  {
    if items == [] then 0 else Expands(items[0]) + ExpandsItems(items[1..])
  }

  function ExpandsFields(fields: seq<Field>): nat
    decreases fields, 0
  {
    if fields == [] then 0 else |fields[0].key| + Expands(fields[0].value) + ExpandsFields(fields[1..])
  }

  /** Values of the shapes the reader takes: table names need not be UTF-8 checked. */
  ghost predicate Fits(v: Value, key: Bytes)
    decreases v, 0
  {
    match v
    case Number(n) => NumOk(n)
    case String(s) => Utf8(s) || (EnumKey(key) && s in Enums())
    case Array(items) => |items| <= 4096 && FitsItems(items, key)
    case Object(fields) => |fields| <= 64 && Sorted(fields) && FitsFields(fields)
    case _ => true
  }

  ghost predicate FitsItems(items: seq<Value>, key: Bytes)
    decreases items, 0
  {
    items == [] || (Fits(items[0], key) && FitsItems(items[1..], key))
  }

  ghost predicate FitsFields(fields: seq<Field>)
    decreases fields, 0
  {
    fields == []
    || ((Utf8(fields[0].key) || fields[0].key in Keys()) && Fits(fields[0].value, fields[0].key) && FitsFields(fields[1..]))
  }

  // ---------------------------------------------------------------- reading back what was written

  lemma TakeBack(a: Bytes, tail: Bytes, expanded: nat, nodes: nat)
    ensures Take(Cursor(a + tail, expanded, nodes), |a|) == Some(Read(a, Cursor(tail, expanded, nodes)))
  {
  }

  lemma TakeIntBack(n: nat, width: nat, tail: Bytes, expanded: nat, nodes: nat)
    requires n < Power(width)
    ensures TakeInt(Cursor(Le(n, width) + tail, expanded, nodes), width) == Some(Read(n, Cursor(tail, expanded, nodes)))
  {
    TakeBack(Le(n, width), tail, expanded, nodes);
    LeBack(n, width);
  }

  lemma ByteBack(b: byte, tail: Bytes, expanded: nat, nodes: nat)
    ensures TakeInt(Cursor([b] + tail, expanded, nodes), 1) == Some(Read(b as nat, Cursor(tail, expanded, nodes)))
  {
    TakeBack([b], tail, expanded, nodes);
    assert [b][1..] == [];
    assert UnLe([b]) == b + 256 * UnLe([]);
  }

  lemma Le32IntBack(n: nat, tail: Bytes, expanded: nat, nodes: nat)
    requires n <= 0xFFFF_FFFF
    ensures TakeInt(Cursor(Le32(n) + tail, expanded, nodes), 4) == Some(Read(n, Cursor(tail, expanded, nodes)))
  {
    TakeBack(Le32(n), tail, expanded, nodes);
    Le32Back(n);
  }

  lemma StringBack(s: Bytes, remaining: nat, tail: Bytes, expanded: nat, nodes: nat)
    requires Utf8(s) && |s| <= remaining && expanded + |s| <= MAX_INPUT
    ensures ReadString(Cursor(EncString(s) + tail, expanded, nodes), remaining)
         == Some(Read(s, Cursor(tail, expanded + |s|, nodes)))
  {
    hide Utf8, Le32, UnLe, Take, TakeInt;
    assert EncString(s) + tail == Le32(|s|) + (s + tail);
    Le32IntBack(|s|, s + tail, expanded, nodes);
    TakeBack(s, tail, expanded + |s|, nodes);
  }

  lemma KeyBack(key: Bytes, tail: Bytes, expanded: nat, nodes: nat)
    requires Utf8(key) || key in Keys()
    requires expanded + |key| <= MAX_INPUT
    ensures ReadKey(Cursor(EncKey(key) + tail, expanded, nodes)) == Some(Read(key, Cursor(tail, expanded + |key|, nodes)))
  {
    hide Utf8, Keys, ReadString, EncString, KeyCode, TakeInt;
    var code := KeyCode(key);
    if code != 0 {
      ByteBack(code, tail, expanded, nodes);
    } else {
      assert EncKey(key) + tail == [0] + (EncString(key) + tail);
      ByteBack(0, EncString(key) + tail, expanded, nodes);
      StringBack(key, MAX_INPUT, tail, expanded, nodes);
    }
  }

  lemma NumBack(n: Num, tail: Bytes, expanded: nat, nodes: nat, dict: seq<Bytes>)
    requires NumOk(n)
    ensures var t := EncNum(n);
      ReadScalar(Cursor(t.body + tail, expanded, nodes), t.tag, dict) == Some(Read(Number(n), Cursor(tail, expanded, nodes)))
  {
    hide Le, UnLe, ReadText, TakeInt;
    Powers();
    match n
    case PosInt(x) =>
      if x <= 255 {
        ByteBack(x, tail, expanded, nodes);
      } else {
        TakeIntBack(x, 8, tail, expanded, nodes);
      }
    case NegInt(m) => TakeIntBack(Unsigned(m), 8, tail, expanded, nodes);
    case Float(bits) => TakeIntBack(bits, 8, tail, expanded, nodes);
  }

  lemma EntryBack(table: seq<Bytes>, id: nat, width: nat, tail: Bytes, expanded: nat, nodes: nat)
    requires id < |table| && id < Power(width) && expanded + |table[id]| <= MAX_INPUT
    ensures var c := TakeInt(Cursor(Le(id, width) + tail, expanded, nodes), width);
      c.Some? && c.value.value == id
      && ReadEntry(c.value.after, table, id) == Some(Read(table[id], Cursor(tail, expanded + |table[id]|, nodes)))
  {
    hide Power, Le, TakeInt;
    TakeIntBack(id, width, tail, expanded, nodes);
  }

  lemma CodeBack(code: byte, dict: seq<Bytes>, tail: Bytes, expanded: nat, nodes: nat)
    requires code < |Enums()| && expanded + |Enums()[code]| <= MAX_INPUT
    ensures ReadText(Cursor([code] + tail, expanded, nodes), 10, dict)
         == Some(Read(Enums()[code], Cursor(tail, expanded + |Enums()[code]|, nodes)))
  {
    hide Enums, ReadEntry, TakeInt;
    ByteLe(code);
    EntryBack(Enums(), code, 1, tail, expanded, nodes);
  }

  lemma ReferenceBack(id: nat, dict: seq<Bytes>, tail: Bytes, expanded: nat, nodes: nat)
    requires id < |dict| <= MAX_ENTRIES && expanded + |dict[id]| <= MAX_INPUT
    ensures ReadText(Cursor(Le(id % 0x1_0000, 2) + tail, expanded, nodes), 7, dict)
         == Some(Read(dict[id], Cursor(tail, expanded + |dict[id]|, nodes)))
  {
    Powers();
    hide ReadEntry, TakeInt, Power, Enums;
    EntryBack(dict, id, 2, tail, expanded, nodes);
  }

  lemma TextBack(s: Bytes, key: Bytes, dict: seq<Bytes>, tail: Bytes, expanded: nat, nodes: nat)
    requires Utf8(s) || (EnumKey(key) && s in Enums())
    requires |dict| <= MAX_ENTRIES && expanded + |s| <= MAX_INPUT
    ensures var t := EncText(s, key, dict);
      ReadText(Cursor(t.body + tail, expanded, nodes), t.tag, dict) == Some(Read(s, Cursor(tail, expanded + |s|, nodes)))
  {
    hide Utf8, EncString, Enums, EnumKey, Interned, Index, EnumCode, Le, ReadText;
    var code := EnumCode(s, key);
    var id := if Interned(key) then Index(dict, s) else None;
    if code.Some? {
      CodeBack(code.value, dict, tail, expanded, nodes);
    } else if id.Some? {
      ReferenceBack(id.value, dict, tail, expanded, nodes);
    } else {
      PlainBack(s, dict, tail, expanded, nodes);
    }
  }

  lemma PlainBack(s: Bytes, dict: seq<Bytes>, tail: Bytes, expanded: nat, nodes: nat)
    requires Utf8(s) && expanded + |s| <= MAX_INPUT
    ensures ReadText(Cursor(EncString(s) + tail, expanded, nodes), 6, dict) == Some(Read(s, Cursor(tail, expanded + |s|, nodes)))
  {
    hide Utf8, EncString, Enums;
    StringBack(s, MAX_INPUT, tail, expanded, nodes);
  }

  lemma ByteLe(b: byte)
    ensures Le(b, 1) == [b] && b < Power(1)
  {
    assert Le(b / 256, 0) == [] && Power(0) == 1;
  }

  /** Reading consumes exactly what was written, and pays exactly the value's cost. */
  lemma {:induction false} ValueBack(
    v: Value, key: Bytes, dict: seq<Bytes>, tail: Bytes, depth: nat, expanded: nat, nodes: nat)
    requires Fits(v, key) && |dict| <= MAX_ENTRIES
    requires depth + Nesting(v) <= READER_DEPTH && expanded + Expands(v) <= MAX_INPUT && Nodes(v) <= nodes
    ensures ReadValue(Cursor(Enc(v, key, dict) + tail, expanded, nodes), dict, depth)
         == Some(Read(v, Cursor(tail, expanded + Expands(v), nodes - Nodes(v))))
    decreases v, 0
  {
    hide Utf8, Le32, UnLe, EncNum, EncText, ReadScalar, Sorted, NumOk, ReadItems, ReadFields, TakeInt, Enums, EnumKey, NestingItems, NestingFields, FitsItems, FitsFields, EncItems, EncFields, Keys;
    var e := Enc(v, key, dict) + tail;
    match v
    case Null =>
      ByteBack(0, tail, expanded, nodes - 1);
      ScalarCodes(Cursor(tail, expanded, nodes - 1), dict);
    case Bool(b) =>
      ByteBack(if b then 2 else 1, tail, expanded, nodes - 1);
      ScalarCodes(Cursor(tail, expanded, nodes - 1), dict);
    case Number(n) =>
      NumBack(n, tail, expanded, nodes - 1, dict);
      var t := EncNum(n);
      assert e == [t.tag] + (t.body + tail);
      ByteBack(t.tag, t.body + tail, expanded, nodes - 1);
    case String(s) =>
      TextBack(s, key, dict, tail, expanded, nodes - 1);
      var t := EncText(s, key, dict);
      assert e == [t.tag] + (t.body + tail);
      ByteBack(t.tag, t.body + tail, expanded, nodes - 1);
      ScalarText(Cursor(t.body + tail, expanded, nodes - 1), t.tag, dict);
    case Array(items) =>
      var body := EncItems(items, key, dict) + tail;
      assert e == [8] + (Le32(|items|) + body);
      ByteBack(8, Le32(|items|) + body, expanded, nodes - 1);
      Le32IntBack(|items|, body, expanded, nodes - 1);
      assert [] + items == items;
      ItemsBack(items, key, dict, tail, depth + 1, expanded, nodes - 1, []);
    case Object(fields) =>
      var body := EncFields(fields, dict) + tail;
      assert e == [9] + (Le32(|fields|) + body);
      ByteBack(9, Le32(|fields|) + body, expanded, nodes - 1);
      Le32IntBack(|fields|, body, expanded, nodes - 1);
      assert [] + fields == fields;
      FieldsBack(fields, dict, tail, depth + 1, expanded, nodes - 1, []);
  }

  lemma ScalarText(c: Cursor, code: nat, dict: seq<Bytes>)
    requires code in {6, 7, 10} && ReadText(c, code, dict).Some?
    ensures var s := ReadText(c, code, dict).value; ReadScalar(c, code, dict) == Some(Read(String(s.value), s.after))
  {
  }

  lemma ScalarCodes(c: Cursor, dict: seq<Bytes>)
    ensures ReadScalar(c, 0, dict) == Some(Read(Null, c))
    ensures ReadScalar(c, 1, dict) == Some(Read(Bool(false), c))
    ensures ReadScalar(c, 2, dict) == Some(Read(Bool(true), c))
  {
  }

  lemma {:induction false} ItemsBack(
    items: seq<Value>, key: Bytes, dict: seq<Bytes>, tail: Bytes, depth: nat, expanded: nat, nodes: nat, acc: seq<Value>)
    requires FitsItems(items, key) && |dict| <= MAX_ENTRIES
    requires depth + NestingItems(items) <= READER_DEPTH || items == []
    requires expanded + ExpandsItems(items) <= MAX_INPUT && NodesItems(items) <= nodes
    ensures ReadItems(Cursor(EncItems(items, key, dict) + tail, expanded, nodes), dict, depth, |items|, acc)
         == Some(Read(acc + items, Cursor(tail, expanded + ExpandsItems(items), nodes - NodesItems(items))))
    decreases items, 0
  {
    hide Enc, Fits, Nesting, Expands, Nodes, ReadValue;
    assert acc + [] == acc && [] + tail == tail;
    if items != [] {
      var v, more := items[0], items[1..];
      var after := EncItems(more, key, dict) + tail;
      assert EncItems(items, key, dict) + tail == Enc(v, key, dict) + after;
      ValueBack(v, key, dict, after, depth, expanded, nodes);
      ItemsBack(more, key, dict, tail, depth, expanded + Expands(v), nodes - Nodes(v), acc + [v]);
      assert acc + [v] + more == acc + items;
    }
  }

  lemma {:induction false} FieldsBack(
    fields: seq<Field>, dict: seq<Bytes>, tail: Bytes, depth: nat, expanded: nat, nodes: nat, acc: seq<Field>)
    requires FitsFields(fields) && |dict| <= MAX_ENTRIES && Sorted(acc + fields)
    requires depth + NestingFields(fields) <= READER_DEPTH || fields == []
    requires expanded + ExpandsFields(fields) <= MAX_INPUT && NodesFields(fields) <= nodes
    ensures ReadFields(Cursor(EncFields(fields, dict) + tail, expanded, nodes), dict, depth, |fields|, acc)
         == Some(Read(acc + fields, Cursor(tail, expanded + ExpandsFields(fields), nodes - NodesFields(fields))))
    decreases fields, 0
  {
    hide Enc, Fits, Nesting, Expands, Nodes, ReadValue, EncKey, ReadKey, Utf8, Keys, Insert, Get;
    assert acc + [] == acc && [] + tail == tail;
    if fields != [] {
      var f, more := fields[0], fields[1..];
      var after := EncFields(more, dict) + tail;
      var value := Enc(f.value, f.key, dict) + after;
      assert EncFields(fields, dict) + tail == EncKey(f.key) + value;
      KeyBack(f.key, value, expanded, nodes);
      ValueBack(f.value, f.key, dict, after, depth, expanded + |f.key|, nodes);
      forall i | 0 <= i < |acc|
        ensures Less(acc[i].key, f.key)
      {
        assert (acc + fields)[i] == acc[i] && (acc + fields)[|acc|] == f;
      }
      InsertLast(acc, f.key, f.value);
      assert f == Field(f.key, f.value);
      assert acc + [f] + more == acc + fields;
      FieldsBack(more, dict, tail, depth, expanded + |f.key| + Expands(f.value), nodes - Nodes(f.value), acc + [f]);
    }
  }
}
