/**
What the readers never exceed, whoever wrote the frame: values, expanded bytes, nesting, counts and the dictionary's limits;
and that nothing comes out of a frame that the encoder would not have been given.
*/
module CodecBudgets {
  import opened Common
  import opened Json
  import opened Observations
  import opened Binary
  import opened Codec
  import opened CodecFrames
  import opened CodecTheorems
  import opened Direct

  // ---------------------------------------------------------------- what a reader can return

  /** Numbers of their widths, text that is UTF-8 or from a table, counts in bounds, keys sorted and so distinct. */
  ghost predicate Shape(v: Value, dict: seq<Bytes>)
    decreases v, 0
  {
    match v
    case Number(n) => NumOk(n)
    case String(s) => Utf8(s) || s in Enums() || s in dict
    case Array(items) => |items| <= 4096 && ShapeItems(items, dict)
    case Object(fields) => |fields| <= 64 && Sorted(fields) && ShapeFields(fields, dict)
    case _ => true
  }

  ghost predicate ShapeItems(items: seq<Value>, dict: seq<Bytes>)
    decreases items, 0
  {
    items == [] || (Shape(items[0], dict) && ShapeItems(items[1..], dict))
  }

  ghost predicate ShapeFields(fields: seq<Field>, dict: seq<Bytes>)
    decreases fields, 0
  {
    fields == [] || ((Utf8(fields[0].key) || fields[0].key in Keys()) && Shape(fields[0].value, dict) && ShapeFields(fields[1..], dict))
  }

  lemma {:induction false} ItemsSnoc(items: seq<Value>, v: Value, dict: seq<Bytes>)
    ensures NodesItems(items + [v]) == NodesItems(items) + Nodes(v)
    ensures ExpandsItems(items + [v]) == ExpandsItems(items) + Expands(v)
    ensures ShapeItems(items, dict) && Shape(v, dict) ==> ShapeItems(items + [v], dict)
    ensures NestingItems(items + [v]) == Max(NestingItems(items), Nesting(v))
  {
    hide Nodes, Expands, Shape, Nesting;
    if items == [] {
      assert items + [v] == [v] && [v][1..] == [];
    } else {
      assert (items + [v])[1..] == items[1..] + [v];
      ItemsSnoc(items[1..], v, dict);
    }
  }

  lemma {:induction false} FieldsInsert(fields: seq<Field>, key: Bytes, v: Value, dict: seq<Bytes>)
    ensures NodesFields(Insert(fields, key, v)) == NodesFields(fields) + Nodes(v)
    ensures ExpandsFields(Insert(fields, key, v)) == ExpandsFields(fields) + |key| + Expands(v)
    ensures ShapeFields(fields, dict) && (Utf8(key) || key in Keys()) && Shape(v, dict) ==> ShapeFields(Insert(fields, key, v), dict)
    ensures NestingFields(Insert(fields, key, v)) == Max(NestingFields(fields), Nesting(v))
  {
    hide Nodes, Expands, Shape, Nesting, Utf8, Keys;
    var f := Field(key, v);
    if fields == [] || Less(key, fields[0].key) {
      assert ([f] + fields)[1..] == fields;
    } else {
      var rest := Insert(fields[1..], key, v);
      assert ([fields[0]] + rest)[1..] == rest;
      FieldsInsert(fields[1..], key, v, dict);
    }
  }

  lemma {:induction false} UnLeBound(bytes: Bytes)
    ensures UnLe(bytes) < Power(|bytes|)
  {
    if bytes != [] {
      UnLeBound(bytes[1..]);
    }
  }

  lemma TakeIntBound(c: Cursor, width: nat)
    ensures TakeInt(c, width).Some? ==>
      var r := TakeInt(c, width).value; r.value < Power(width) && r.after.expanded == c.expanded && r.after.nodes == c.nodes
  {
    if width <= |c.rest| {
      UnLeBound(c.rest[..width]);
    }
  }

  /** What a read of text has paid: its length, within the limit. */
  ghost predicate Paid(c: Cursor, after: Cursor, bytes: nat, nodes: nat) {
    after.nodes + nodes == c.nodes && after.expanded == c.expanded + bytes && (bytes > 0 ==> after.expanded <= MAX_INPUT)
  }

  lemma StringPays(c: Cursor, remaining: nat)
    ensures ReadString(c, remaining).Some? ==>
      var r := ReadString(c, remaining).value; Paid(c, r.after, |r.value|, 0) && |r.value| <= remaining && Utf8(r.value)
  {
    hide Utf8, UnLe;
    TakeIntBound(c, 4);
  }

  lemma EntryPays(c: Cursor, table: seq<Bytes>, id: nat)
    ensures ReadEntry(c, table, id).Some? ==> var r := ReadEntry(c, table, id).value; Paid(c, r.after, |r.value|, 0) && r.value in table
  {
  }

  lemma KeyPays(c: Cursor)
    ensures ReadKey(c).Some? ==>
      var r := ReadKey(c).value; Paid(c, r.after, |r.value|, 0) && (Utf8(r.value) || r.value in Keys())
  {
    hide Utf8, UnLe, ReadString, ReadEntry, Keys, TakeInt;
    TakeIntBound(c, 1);
    if TakeInt(c, 1).Some? {
      var id := TakeInt(c, 1).value;
      if id.value == 0 {
        StringPays(id.after, MAX_INPUT);
      } else {
        EntryPays(id.after, Keys(), id.value - 1);
      }
    }
  }

  lemma TextPays(c: Cursor, code: nat, dict: seq<Bytes>)
    ensures ReadText(c, code, dict).Some? ==>
      var r := ReadText(c, code, dict).value;
      Paid(c, r.after, |r.value|, 0) && (Utf8(r.value) || r.value in Enums() || r.value in dict)
  {
    hide Utf8, UnLe, ReadString, ReadEntry, Enums, TakeInt;
    TakeIntBound(c, 1);
    TakeIntBound(c, 2);
    StringPays(c, MAX_INPUT);
    if code == 10 && TakeInt(c, 1).Some? {
      EntryPays(TakeInt(c, 1).value.after, Enums(), TakeInt(c, 1).value.value);
    } else if code == 7 && TakeInt(c, 2).Some? {
      EntryPays(TakeInt(c, 2).value.after, dict, TakeInt(c, 2).value.value);
    }
  }

  lemma ScalarPays(c: Cursor, code: nat, dict: seq<Bytes>)
    requires code != 8 && code != 9
    ensures ReadScalar(c, code, dict).Some? ==>
      var r := ReadScalar(c, code, dict).value;
      Paid(c, r.after, Expands(r.value), 0) && Nodes(r.value) == 1 && Nesting(r.value) == 0 && Shape(r.value, dict)
  {
    hide Utf8, UnLe, ReadText, Enums, TakeInt, Finite;
    Powers();
    TakeIntBound(c, 1);
    TakeIntBound(c, 8);
    assert Power(1) == 256;
    hide Power;
    TextPays(c, code, dict);
  }

  /**
  The reader pays for exactly what it returns, whatever the bytes: one node a value, one unit a byte of text, never past
  the budgets; and what it returns is well formed and no deeper than it may go.
  */
  lemma {:induction false} ReadPays(c: Cursor, dict: seq<Bytes>, depth: nat)
    requires c.expanded <= MAX_INPUT
    ensures ReadValue(c, dict, depth).Some? ==>
      var r := ReadValue(c, dict, depth).value;
      && Paid(c, r.after, Expands(r.value), Nodes(r.value)) && r.after.expanded <= MAX_INPUT
      && Shape(r.value, dict) && depth + Nesting(r.value) <= READER_DEPTH + 1
    decreases Max(READER_DEPTH + 1 - depth, 0), 0
  {
    hide TakeInt, ReadScalar, ReadItems, ReadFields, Utf8, Keys;
    if depth <= READER_DEPTH && c.nodes > 0 {
      var start := c.(nodes := c.nodes - 1);
      TakeIntBound(start, 1);
      if TakeInt(start, 1).Some? {
        var code := TakeInt(start, 1).value;
        TakeIntBound(code.after, 4);
        if code.value == 8 || code.value == 9 {
          if TakeInt(code.after, 4).Some? {
            var n := TakeInt(code.after, 4).value;
            ItemsPay(n.after, dict, depth + 1, n.value, []);
            FieldsPay(n.after, dict, depth + 1, n.value, []);
          }
        } else {
          ScalarPays(code.after, code.value, dict);
        }
      }
    }
  }

  lemma {:induction false} ItemsPay(c: Cursor, dict: seq<Bytes>, depth: nat, n: nat, items: seq<Value>)
    requires c.expanded <= MAX_INPUT && ShapeItems(items, dict) && depth + NestingItems(items) <= READER_DEPTH + 1
    ensures ReadItems(c, dict, depth, n, items).Some? ==>
      var r := ReadItems(c, dict, depth, n, items).value;
      && r.after.nodes + NodesItems(r.value) == c.nodes + NodesItems(items)
      && r.after.expanded + ExpandsItems(items) == c.expanded + ExpandsItems(r.value) && r.after.expanded <= MAX_INPUT
      && |r.value| == |items| + n && ShapeItems(r.value, dict) && depth + NestingItems(r.value) <= READER_DEPTH + 1
    decreases Max(READER_DEPTH + 1 - depth, 0), n + 1
  {
    hide ReadValue, ShapeItems, NodesItems, ExpandsItems, NestingItems, Shape, Nodes, Expands, Nesting;
    if n > 0 {
      ReadPays(c, dict, depth);
      if ReadValue(c, dict, depth).Some? {
        var v := ReadValue(c, dict, depth).value;
        ItemsSnoc(items, v.value, dict);
        ItemsPay(v.after, dict, depth, n - 1, items + [v.value]);
      }
    }
  }

  lemma {:induction false} FieldsPay(c: Cursor, dict: seq<Bytes>, depth: nat, n: nat, fields: seq<Field>)
    requires c.expanded <= MAX_INPUT && Sorted(fields) && ShapeFields(fields, dict) && depth + NestingFields(fields) <= READER_DEPTH + 1
    ensures ReadFields(c, dict, depth, n, fields).Some? ==>
      var r := ReadFields(c, dict, depth, n, fields).value;
      && r.after.nodes + NodesFields(r.value) == c.nodes + NodesFields(fields)
      && r.after.expanded + ExpandsFields(fields) == c.expanded + ExpandsFields(r.value) && r.after.expanded <= MAX_INPUT
      && |r.value| == |fields| + n && Sorted(r.value) && ShapeFields(r.value, dict) && depth + NestingFields(r.value) <= READER_DEPTH + 1
    decreases Max(READER_DEPTH + 1 - depth, 0), n + 1
  {
    hide ReadValue, ReadKey, ShapeFields, NodesFields, ExpandsFields, NestingFields, Shape, Nodes, Expands, Nesting, Sorted, Insert, Get, Utf8, Keys;
    if n > 0 && ReadKey(c).Some? {
      KeyPays(c);
      var k := ReadKey(c).value;
      assert k.after.expanded <= MAX_INPUT;
      ReadPays(k.after, dict, depth);
      if ReadValue(k.after, dict, depth).Some? && Get(fields, k.value).None? {
        var v := ReadValue(k.after, dict, depth).value;
        InsertSorted(fields, k.value, v.value);
        FieldsInsert(fields, k.value, v.value, dict);
        FieldsPay(v.after, dict, depth, n - 1, Insert(fields, k.value, v.value));
      }
    }
  }

  // ---------------------------------------------------------------- dictionaries and frames

  lemma {:induction false} DictPays(c: Cursor, start: nat, n: nat, dict: seq<Bytes>)
    requires start <= c.expanded <= start + MAX_DICTIONARY && forall i :: 0 <= i < |dict| ==> Utf8(dict[i])
    ensures ReadDict(c, start, n, dict).Some? ==>
      var r := ReadDict(c, start, n, dict).value;
      && |r.value| == |dict| + n && |Concat(r.value)| + c.expanded == |Concat(dict)| + r.after.expanded
      && r.after.expanded <= start + MAX_DICTIONARY && r.after.nodes == c.nodes && forall i :: 0 <= i < |r.value| ==> Utf8(r.value[i])
    decreases n
  {
    hide Utf8, ReadString;
    if n > 0 {
      var remaining := MAX_DICTIONARY - (c.expanded - start);
      StringPays(c, remaining);
      if ReadString(c, remaining).Some? {
        var s := ReadString(c, remaining).value;
        ConcatSnoc(dict, s.value);
        DictPays(s.after, start, n - 1, dict + [s.value]);
      }
    }
  }

  /** A dictionary that is read has at most 1024 entries of together at most 65536 bytes, all text, and costs the values nothing. */
  lemma DictionaryPays(c: Cursor)
    requires c.expanded == 0
    ensures ReadDictionary(c).Some? ==>
      var r := ReadDictionary(c).value;
      && |r.value| <= 1024 && |Concat(r.value)| <= 65536 && (forall i :: 0 <= i < |r.value| ==> Utf8(r.value[i]))
      && r.after.expanded == 0 && r.after.nodes == c.nodes
  {
    hide Utf8, ReadDict, TakeInt;
    TakeIntBound(c, 4);
    if TakeInt(c, 4).Some? && TakeInt(c, 4).value.value <= MAX_ENTRIES {
      DictPays(TakeInt(c, 4).value.after, 0, TakeInt(c, 4).value.value, []);
    }
  }

  /**
  Nothing comes out of a row or column frame that could not have gone in: one to 32 records, each valid, each of a text
  that decodes, all of a text within the batch limit; out of a frame within its own limit that names its schema and codec.
  */
  lemma DecodedIsCanonical(bytes: Bytes, lib: CodecFrames.Library)
    ensures DecodeFrame(bytes, lib).Some? ==>
      var records := DecodeFrame(bytes, lib).value;
      && 1 <= |records| <= 32 && |BatchText(records, lib.fl)| <= 262144
      && (forall i :: 0 <= i < |records| ==>
            && Valid(records[i]) && Shallow(Text(records[i], lib.fl), 65536, 16)
            && lib.parse(Text(records[i], lib.fl)).Some? && Valid(lib.parse(Text(records[i], lib.fl)).value))
      && |bytes| <= 1048576 && |bytes| > 31 && bytes[..31] == B("F11Y-EXPERIMENT-1/fabrico11y-2") + [0] && bytes[31] in {1, 2}
  {
    hide Valid, ReadBatch, FromValues, Shallow;
    if DecodeFrame(bytes, lib).Some? {
      var rest := bytes[31..];
      assert rest[..1] == [bytes[31]] && [bytes[31]][1..] == [];
      assert UnLe([bytes[31]]) == bytes[31] + 256 * UnLe([]);
    }
  }

  /** The same of a direct frame, by its own validator. */
  lemma DecodedIsValidated(bytes: Bytes, lib: CodecFrames.Library)
    ensures DecodeDirectFrame(bytes, lib).Some? ==>
      var records := DecodeDirectFrame(bytes, lib).value;
      && 1 <= |records| <= 32 && Shallow(BatchText(records, lib.fl), 262144, 17)
      && (forall i :: 0 <= i < |records| ==> Valid(records[i]) && Shallow(Text(records[i], lib.fl), 65536, 16))
      && |bytes| <= 1048576 && |bytes| > 31 && bytes[..32] == B("F11Y-EXPERIMENT-1/fabrico11y-2") + [0] + [3]
  {
    hide Valid, ReadDirect, Shallow;
  }

  // ---------------------------------------------------------------- direct rows

  /** A string of a direct row: its length, nothing else for none; at most 65536 bytes of text, all strings so far within 262144. */
  lemma StringReads(c: Cursor)
    ensures var b := c.rest;
      ReadOptional(c) ==
        if |b| < 4 then None
        else
          var n := UnLe(b[..4]);
          if n == 0xFFFF_FFFF then Some(Read(None, Cursor(b[4..], c.expanded, c.nodes)))
          else if n <= 65536 && c.expanded + n <= 262144 && 4 + n <= |b| && Utf8(b[4..4 + n]) then
            Some(Read(Some(b[4..4 + n]), Cursor(b[4 + n..], c.expanded + n, c.nodes)))
          else None
  {
    hide Utf8, UnLe;
    var b := c.rest;
    if |b| >= 4 {
      var n := UnLe(b[..4]);
      if 4 + n <= |b| {
        assert b[4..][..n] == b[4..4 + n] && b[4..][n..] == b[4 + n..];
      }
    }
  }

  function Size(strings: seq<Option<Bytes>>): nat {
    if strings == [] then 0
    else Size(strings[..|strings| - 1]) + if strings[|strings| - 1].Some? then |strings[|strings| - 1].value| else 0
  }

  lemma {:induction false} StringsPay(c: Cursor, n: nat, strings: seq<Option<Bytes>>)
    ensures ReadOptionals(c, n, strings).Some? ==>
      var r := ReadOptionals(c, n, strings).value;
      r.after.expanded + Size(strings) == c.expanded + Size(r.value) && r.after.expanded <= Max(c.expanded, MAX_INPUT)
    decreases n
  {
    hide ReadOptional, Utf8, UnLe;
    if n > 0 {
      StringReads(c);
      if ReadOptional(c).Some? {
        var s := ReadOptional(c).value;
        assert (strings + [s.value])[..|strings|] == strings;
        StringsPay(s.after, n - 1, strings + [s.value]);
      }
    }
  }

  lemma {:induction false} NumbersPay(c: Cursor, n: nat, numbers: seq<nat>)
    ensures ReadNumbers(c, n, numbers).Some? ==> ReadNumbers(c, n, numbers).value.after.expanded == c.expanded
    decreases n
  {
    hide UnLe;
    if n > 0 && TakeInt(c, 8).Some? {
      NumbersPay(TakeInt(c, 8).value.after, n - 1, numbers + [TakeInt(c, 8).value.value]);
    }
  }

  /** The rows that were read: what the records stand for, and where the strings of all of them together are counted. */
  ghost predicate RowsRead(c: Cursor, records: seq<Observation>, rows: seq<Row>, after: Cursor, lib: CodecFrames.Library) {
    && |rows| == |records| && (forall i :: 0 <= i < |rows| ==> |rows[i].strings| == |rows[i].numbers| == 7)
    && (forall i :: 0 <= i < |rows| ==> FromRow(rows[i], lib) == Some(records[i]))
    && after.expanded == c.expanded + RowSizes(rows) && after.expanded <= Max(c.expanded, MAX_INPUT)
  }

  function RowSizes(rows: seq<Row>): nat {
    if rows == [] then 0 else Size(rows[0].strings) + RowSizes(rows[1..])
  }

  /** The strings of all rows that are read have together at most 262144 bytes. */
  lemma {:induction false} RowsPay(c: Cursor, n: nat, lib: CodecFrames.Library, records: seq<Observation>) returns (rows: seq<Row>)
    ensures ReadRecords(c, n, lib, records).Some? ==>
      var r := ReadRecords(c, n, lib, records).value;
      records <= r.value && RowsRead(c, r.value[|records|..], rows, r.after, lib) && |rows| == n
    decreases n
  {
    hide FromRow, ReadNumbers, ReadOptionals, Size;
    rows := [];
    if n > 0 && ReadRow(c).Some? {
      var row := ReadRow(c).value;
      NumbersPay(c, 7, []);
      StringsPay(ReadNumbers(c, 7, []).value.after, 7, []);
      assert Size([]) == 0 by {
        Nothing();
      }
      if FromRow(row.value, lib).Some? {
        var o := FromRow(row.value, lib).value;
        var more := RowsPay(row.after, n - 1, lib, records + [o]);
        rows := [row.value] + more;
        assert rows[1..] == more;
        if ReadRecords(c, n, lib, records).Some? {
          var all := ReadRecords(c, n, lib, records).value.value;
          assert all[|records|] == o && all[|records|..] == [o] + all[|records| + 1..];
        }
      }
    }
  }

  lemma Nothing()
    ensures Size([]) == 0
  {
  }
}
