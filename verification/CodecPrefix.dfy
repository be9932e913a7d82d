/** Accepted row and column frames are prefix-free: reading is local, so a cut or an extended frame is refused. */
module CodecPrefix {
  import opened Common
  import opened Json
  import opened Observations
  import opened Binary
  import opened Codec
  import opened CodecFrames
  import opened CodecTheorems

  /** The same cursor with more input behind it. */
  function More(c: Cursor, t: Bytes): Cursor {
    c.(rest := c.rest + t)
  }

  function Longer<T>(r: Read<T>, t: Bytes): Read<T> {
    Read(r.value, More(r.after, t))
  }

  lemma TakeLocal(c: Cursor, n: nat, t: Bytes)
    ensures Take(c, n).Some? ==> Take(More(c, t), n) == Some(Longer(Take(c, n).value, t))
  {
    if n <= |c.rest| {
      assert (c.rest + t)[..n] == c.rest[..n];
      assert (c.rest + t)[n..] == c.rest[n..] + t;
    }
  }

  lemma TakeIntLocal(c: Cursor, width: nat, t: Bytes)
    ensures TakeInt(c, width).Some? ==> TakeInt(More(c, t), width) == Some(Longer(TakeInt(c, width).value, t))
  {
    hide UnLe, Take;
    TakeLocal(c, width, t);
  }

  lemma StringLocal(c: Cursor, remaining: nat, t: Bytes)
    ensures ReadString(c, remaining).Some?
        ==> ReadString(More(c, t), remaining) == Some(Longer(ReadString(c, remaining).value, t))
  {
    if ReadString(c, remaining).Some? {
      hide Utf8, Take, TakeInt;
      TakeIntLocal(c, 4, t);
      var n := TakeInt(c, 4).value;
      TakeLocal(Charge(n.after, n.value).value, n.value, t);
    }
  }

  lemma EntryLocal(c: Cursor, table: seq<Bytes>, id: nat, t: Bytes)
    ensures ReadEntry(c, table, id).Some? ==> ReadEntry(More(c, t), table, id) == Some(Longer(ReadEntry(c, table, id).value, t))
  {
  }

  lemma KeyLocal(c: Cursor, t: Bytes)
    ensures ReadKey(c).Some? ==> ReadKey(More(c, t)) == Some(Longer(ReadKey(c).value, t))
  {
    hide ReadString, ReadEntry, TakeInt, Keys;
    TakeIntLocal(c, 1, t);
    if TakeInt(c, 1).Some? {
      var id := TakeInt(c, 1).value;
      StringLocal(id.after, MAX_INPUT, t);
      if id.value != 0 {
        EntryLocal(id.after, Keys(), id.value - 1, t);
      }
    }
  }

  lemma TextLocal(c: Cursor, code: nat, dict: seq<Bytes>, t: Bytes)
    ensures ReadText(c, code, dict).Some? ==> ReadText(More(c, t), code, dict) == Some(Longer(ReadText(c, code, dict).value, t))
  {
    hide ReadString, ReadEntry, TakeInt, Enums;
    StringLocal(c, MAX_INPUT, t);
    var width := if code == 10 then 1 else 2;
    TakeIntLocal(c, width, t);
    if TakeInt(c, width).Some? {
      var id := TakeInt(c, width).value;
      EntryLocal(id.after, if code == 10 then Enums() else dict, id.value, t);
    }
  }

  lemma ScalarLocal(c: Cursor, code: nat, dict: seq<Bytes>, t: Bytes)
    ensures ReadScalar(c, code, dict).Some?
        ==> ReadScalar(More(c, t), code, dict) == Some(Longer(ReadScalar(c, code, dict).value, t))
  {
    hide ReadText, TakeInt, Finite;
    TextLocal(c, code, dict, t);
    TakeIntLocal(c, 1, t);
    TakeIntLocal(c, 8, t);
  }

  /** A value is read from its own bytes alone. */
  lemma {:induction false} ValueLocal(c: Cursor, dict: seq<Bytes>, depth: nat, t: Bytes)
    ensures ReadValue(c, dict, depth).Some?
        ==> ReadValue(More(c, t), dict, depth) == Some(Longer(ReadValue(c, dict, depth).value, t))
    decreases Max(READER_DEPTH + 1 - depth, 0), 0
  {
    hide TakeInt, ReadScalar, ReadItems, ReadFields;
    if depth <= READER_DEPTH && c.nodes > 0 {
      var start := c.(nodes := c.nodes - 1);
      TakeIntLocal(start, 1, t);
      if TakeInt(start, 1).Some? {
        var code := TakeInt(start, 1).value;
        TakeIntLocal(code.after, 4, t);
        ScalarLocal(code.after, code.value, dict, t);
        if TakeInt(code.after, 4).Some? {
          var n := TakeInt(code.after, 4).value;
          ItemsLocal(n.after, dict, depth + 1, n.value, [], t);
          FieldsLocal(n.after, dict, depth + 1, n.value, [], t);
        }
      }
    }
  }

  lemma {:induction false} ItemsLocal(c: Cursor, dict: seq<Bytes>, depth: nat, n: nat, items: seq<Value>, t: Bytes)
    ensures ReadItems(c, dict, depth, n, items).Some?
        ==> ReadItems(More(c, t), dict, depth, n, items) == Some(Longer(ReadItems(c, dict, depth, n, items).value, t))
    decreases Max(READER_DEPTH + 1 - depth, 0), n + 1
  {
    hide ReadValue;
    if n > 0 {
      ValueLocal(c, dict, depth, t);
      if ReadValue(c, dict, depth).Some? {
        var v := ReadValue(c, dict, depth).value;
        ItemsLocal(v.after, dict, depth, n - 1, items + [v.value], t);
      }
    }
  }

  lemma {:induction false} FieldsLocal(c: Cursor, dict: seq<Bytes>, depth: nat, n: nat, fields: seq<Field>, t: Bytes)
    ensures ReadFields(c, dict, depth, n, fields).Some?
        ==> ReadFields(More(c, t), dict, depth, n, fields) == Some(Longer(ReadFields(c, dict, depth, n, fields).value, t))
    decreases Max(READER_DEPTH + 1 - depth, 0), n + 1
  {
    hide ReadValue, ReadKey, Insert, Get;
    if n > 0 && ReadKey(c).Some? {
      KeyLocal(c, t);
      var k := ReadKey(c).value;
      ValueLocal(k.after, dict, depth, t);
      if ReadValue(k.after, dict, depth).Some? {
        var v := ReadValue(k.after, dict, depth).value;
        FieldsLocal(v.after, dict, depth, n - 1, Insert(fields, k.value, v.value), t);
      }
    }
  }

  lemma {:induction false} DictLocal(c: Cursor, start: nat, n: nat, dict: seq<Bytes>, t: Bytes)
    requires start <= c.expanded <= start + MAX_DICTIONARY
    ensures ReadDict(c, start, n, dict).Some?
        ==> ReadDict(More(c, t), start, n, dict) == Some(Longer(ReadDict(c, start, n, dict).value, t))
    decreases n
  {
    hide ReadString;
    if n > 0 {
      var remaining := MAX_DICTIONARY - (c.expanded - start);
      StringLocal(c, remaining, t);
      if ReadString(c, remaining).Some? {
        var s := ReadString(c, remaining).value;
        DictLocal(s.after, start, n - 1, dict + [s.value], t);
      }
    }
  }

  lemma DictionaryLocal(c: Cursor, t: Bytes)
    ensures ReadDictionary(c).Some? ==> ReadDictionary(More(c, t)) == Some(Longer(ReadDictionary(c).value, t))
  {
    hide ReadDict, TakeInt;
    TakeIntLocal(c, 4, t);
    if TakeInt(c, 4).Some? {
      var n := TakeInt(c, 4).value;
      DictLocal(n.after, n.after.expanded, n.value, [], t);
    }
  }

  lemma {:induction false} ColumnLocal(c: Cursor, dict: seq<Bytes>, key: Bytes, rows: seq<seq<Field>>, t: Bytes)
    ensures ReadColumn(c, dict, key, rows).Some?
        ==> ReadColumn(More(c, t), dict, key, rows) == Some(Longer(ReadColumn(c, dict, key, rows).value, t))
    decreases |rows|
  {
    hide ReadValue, Put;
    if rows != [] {
      ValueLocal(c, dict, 0, t);
      if ReadValue(c, dict, 0).Some? {
        ColumnLocal(ReadValue(c, dict, 0).value.after, dict, key, rows[1..], t);
      }
    }
  }

  lemma {:induction false} ColumnsLocal(c: Cursor, dict: seq<Bytes>, keys: seq<Bytes>, rows: seq<seq<Field>>, t: Bytes)
    ensures ReadColumns(c, dict, keys, rows).Some?
        ==> ReadColumns(More(c, t), dict, keys, rows) == Some(Longer(ReadColumns(c, dict, keys, rows).value, t))
    decreases |keys|
  {
    hide ReadColumn;
    if keys != [] {
      ColumnLocal(c, dict, keys[0], rows, t);
      if ReadColumn(c, dict, keys[0], rows).Some? {
        var filled := ReadColumn(c, dict, keys[0], rows).value;
        ColumnsLocal(filled.after, dict, keys[1..], filled.value, t);
      }
    }
  }

  lemma BatchLocal(c: Cursor, columns: bool, t: Bytes)
    ensures ReadBatch(c, columns).Some? ==> ReadBatch(More(c, t), columns) == Some(Longer(ReadBatch(c, columns).value, t))
  {
    hide ReadDictionary, ReadColumns, ReadItems, TakeInt, Columns;
    DictionaryLocal(c, t);
    if ReadDictionary(c).Some? {
      var dict := ReadDictionary(c).value;
      TakeIntLocal(dict.after, 4, t);
      if TakeInt(dict.after, 4).Some? {
        var count := TakeInt(dict.after, 4).value;
        ColumnsLocal(count.after, dict.value, Columns(), Blank(count.value), t);
        ItemsLocal(count.after, dict.value, 0, count.value, [], t);
      }
    }
  }

  /** Of two accepted frames neither is a strict prefix of the other. */
  lemma PrefixFree(frame: Bytes, extra: Bytes, lib: Library)
    requires DecodeFrame(frame, lib).Some? && DecodeFrame(frame + extra, lib).Some?
    ensures extra == []
  {
    hide ReadBatch, FromValues, Canonical, TakeInt, Magic;
    var head := Cursor(frame[|Magic()|..], 0, MAX_INPUT);
    assert (frame + extra)[|Magic()|..] == head.rest + extra;
    TakeIntLocal(head, 1, extra);
    var code := TakeInt(head, 1).value;
    BatchLocal(code.after, code.value == 2, extra);
  }

  /** No encoded frame survives being cut short. */
  lemma FrameRefusesCut(columns: bool, records: seq<Observation>, lib: Library, n: nat)
    requires Canonical(records, lib) && FloatsOk(lib.fl) && forall i :: 0 <= i < |records| ==> Typed(records[i])
    requires n < |Frame(columns, records)|
    ensures DecodeFrame(Frame(columns, records)[..n], lib) == None
  {
    hide *;
    FrameRoundTrip(columns, records, lib);
    var frame := Frame(columns, records);
    assert frame == frame[..n] + frame[n..];
    if DecodeFrame(frame[..n], lib).Some? {
      PrefixFree(frame[..n], frame[n..], lib);
    }
  }

  /** Nor having bytes added. */
  lemma FrameRefusesMore(columns: bool, records: seq<Observation>, lib: Library, extra: Bytes)
    requires Canonical(records, lib) && FloatsOk(lib.fl) && forall i :: 0 <= i < |records| ==> Typed(records[i])
    requires extra != []
    ensures DecodeFrame(Frame(columns, records) + extra, lib) == None
  {
    hide *;
    FrameRoundTrip(columns, records, lib);
    if DecodeFrame(Frame(columns, records) + extra, lib).Some? {
      PrefixFree(Frame(columns, records), extra, lib);
    }
  }
}
