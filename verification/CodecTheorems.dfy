/** The row and column codecs lose nothing, fit their frames, and cannot be cut or extended. */
module CodecTheorems {
  import opened Common
  import opened Json
  import opened Observations
  import opened Binary
  import opened Codec
  import opened CodecBounds
  import opened CodecFrames

  // ---------------------------------------------------------------- columns

  function FieldExpands(f: Field): nat {
    Expands(f.value)
  }

  function FieldNodes(f: Field): nat {
    Nodes(f.value)
  }

  function FieldLength(dict: seq<Bytes>): Field -> nat {
    (f: Field) => |Enc(f.value, f.key, dict)|
  }

  /** Records the encoder accepts, as far as the columns are concerned. */
  ghost predicate Sound(records: seq<Observation>) {
    forall i :: 0 <= i < |records| ==> Typed(records[i]) && Valid(records[i]) && Nesting(Document(records[i])) <= MAX_DEPTH
  }

  lemma EnvelopeKeys(o: Observation, j: nat)
    requires j < 6
    ensures Columns()[j] == Envelope(o)[j].key
  {
    hide B, IdentityFields, DataFields, Build;
  }

  lemma EnvelopeField(o: Observation, j: nat)
    requires Typed(o) && Valid(o) && Nesting(Document(o)) <= MAX_DEPTH && j < 6
    ensures Columns()[j] == Envelope(o)[j].key
    ensures At(ToValue(o), Columns()[j]) == Envelope(o)[j].value
    ensures Fits(Envelope(o)[j].value, Columns()[j]) && Nesting(Envelope(o)[j].value) <= MAX_DEPTH
  {
    var f := Envelope(o)[j];
    EnvelopeKeys(o, j);
    ValueFits(o, []);
    ValueNesting(o);
    EnvelopeDistinct(o, Object(Build(IdentityFields(o.identity))), Object(Build(DataFields(o.data))));
    BuildHolds(Envelope(o));
    ToValueIs(o);
    hide Envelope, Build, Columns, Keys, Typed, Valid, ToValue, Document, Get, Utf8;
    var v := Build(Envelope(o));
    FitsMember(v);
    NestingMember(v, MAX_DEPTH);
    assert f in Envelope(o) && f in v;
    assert FieldFits(f);
  }

  lemma ToValueIs(o: Observation)
    ensures ToValue(o) == Object(Build(Envelope(o)))
  {
    hide Build, IdentityFields, DataFields;
  }

  function PutColumn(rows: seq<seq<Field>>, records: seq<Observation>, j: nat): seq<seq<Field>>
    requires |rows| == |records| && j < 6
  {
    if rows == [] then []
    else
      var f := Envelope(records[0])[j];
      [Put(rows[0], f.key, f.value)] + PutColumn(rows[1..], records[1..], j)
  }

  lemma {:induction false} ColumnBack(
    records: seq<Observation>, j: nat, dict: seq<Bytes>, rows: seq<seq<Field>>, tail: Bytes, expanded: nat, nodes: nat)
    requires Sound(records) && |rows| == |records| && j < 6 && |dict| <= MAX_ENTRIES
    requires expanded + SumAt(records, j, FieldExpands) <= MAX_INPUT && SumAt(records, j, FieldNodes) <= nodes
    ensures ReadColumn(Cursor(EncColumn(Values(records), Columns()[j], dict) + tail, expanded, nodes), dict, Columns()[j], rows)
         == Some(Read(PutColumn(rows, records, j),
                 Cursor(tail, expanded + SumAt(records, j, FieldExpands), nodes - SumAt(records, j, FieldNodes))))
    decreases |records|
  {
    hide Enc, ReadValue, Put, At, Envelope, Columns, ToValue, Typed, Valid, Document, Nesting, Fits;
    assert [] + tail == tail;
    if records != [] {
      var o, more, key := records[0], records[1..], Columns()[j];
      EnvelopeField(o, j);
      var f := Envelope(o)[j];
      assert Values(records)[1..] == Values(more);
      var after := EncColumn(Values(more), key, dict) + tail;
      assert EncColumn(Values(records), key, dict) + tail == Enc(f.value, key, dict) + after;
      ValueBack(f.value, key, dict, after, 0, expanded, nodes);
      ColumnBack(more, j, dict, rows[1..], tail, expanded + Expands(f.value), nodes - Nodes(f.value));
    }
  }

  /** The decoder's objects once the first j columns are in. */
  function Filled(records: seq<Observation>, j: nat): (r: seq<seq<Field>>)
    requires j <= 6
    ensures |r| == |records|
  {
    if records == [] then [] else [Build(Envelope(records[0])[..j])] + Filled(records[1..], j)
  }

  lemma {:induction false} PutInsert(fields: seq<Field>, key: Bytes, value: Value)
    requires forall f :: f in fields ==> f.key != key
    ensures Put(fields, key, value) == Insert(fields, key, value)
  {
    if fields != [] {
      PutInsert(fields[1..], key, value);
    }
  }

  lemma PutNext(o: Observation, j: nat)
    requires j < 6
    ensures var f := Envelope(o)[j]; Put(Build(Envelope(o)[..j]), f.key, f.value) == Build(Envelope(o)[..j + 1])
  {
    EnvelopeDistinct(o, Object(Build(IdentityFields(o.identity))), Object(Build(DataFields(o.data))));
    var e := Envelope(o);
    assert Distinct(e);
    hide Envelope, Get, Put, Insert;
    BuildHolds(e[..j]);
    forall f | f in Build(e[..j])
      ensures f.key != e[j].key
    {
      assert f in e[..j];
    }
    PutInsert(Build(e[..j]), e[j].key, e[j].value);
    assert e[..j + 1][..j] == e[..j];
  }

  lemma {:induction false} PutFills(records: seq<Observation>, j: nat)
    requires j < 6
    ensures PutColumn(Filled(records, j), records, j) == Filled(records, j + 1)
  {
    hide Envelope, Put, Build;
    if records != [] {
      PutNext(records[0], j);
      PutFills(records[1..], j);
      assert Filled(records, j)[1..] == Filled(records[1..], j);
    }
  }

  lemma ColumnsNext(c: Cursor, dict: seq<Bytes>, keys: seq<Bytes>, rows: seq<seq<Field>>)
    requires keys != [] && ReadColumn(c, dict, keys[0], rows).Some?
    ensures var filled := ReadColumn(c, dict, keys[0], rows).value;
      ReadColumns(c, dict, keys, rows) == ReadColumns(filled.after, dict, keys[1..], filled.value)
  {
  }

  /** The decoder's run over the columns from j on. */
  function ColumnsRun(records: seq<Observation>, j: nat, dict: seq<Bytes>, expanded: nat, nodes: nat): Option<Read<seq<seq<Field>>>>
    requires j <= 6
  {
    ReadColumns(
      Cursor(EncColumns(Values(records), Columns()[j..], dict), expanded, nodes), dict, Columns()[j..], Filled(records, j))
  }

  lemma ColumnStep(records: seq<Observation>, j: nat, dict: seq<Bytes>, expanded: nat, nodes: nat)
    requires Sound(records) && j < 6 && |dict| <= MAX_ENTRIES
    requires expanded + SumAt(records, j, FieldExpands) <= MAX_INPUT && SumAt(records, j, FieldNodes) <= nodes
    ensures ColumnsRun(records, j, dict, expanded, nodes)
         == ColumnsRun(records, j + 1, dict, expanded + SumAt(records, j, FieldExpands), nodes - SumAt(records, j, FieldNodes))
  {
    hide ReadColumn, ReadColumns, EncColumn, Columns, Filled, PutColumn, Sound, SumAt, Values;
    var values, keys := Values(records), Columns()[j..];
    assert keys[1..] == Columns()[j + 1..] && keys[0] == Columns()[j];
    var more := EncColumns(values, keys[1..], dict);
    assert EncColumns(values, keys, dict) == EncColumn(values, keys[0], dict) + more;
    hide EncColumns;
    ColumnBack(records, j, dict, Filled(records, j), more, expanded, nodes);
    PutFills(records, j);
    ColumnsNext(Cursor(EncColumn(values, keys[0], dict) + more, expanded, nodes), dict, keys, Filled(records, j));
  }

  lemma ColumnsEnd(records: seq<Observation>, dict: seq<Bytes>, expanded: nat, nodes: nat)
    ensures ColumnsRun(records, 6, dict, expanded, nodes) == Some(Read(Filled(records, 6), Cursor([], expanded, nodes)))
  {
    hide Filled, Values;
    assert Columns()[6..] == [];
  }

  lemma {:induction false} ColumnsBack(records: seq<Observation>, j: nat, dict: seq<Bytes>, expanded: nat, nodes: nat)
    requires Sound(records) && j <= 6 && |dict| <= MAX_ENTRIES
    requires expanded + SumFrom(records, j, FieldExpands) <= MAX_INPUT && SumFrom(records, j, FieldNodes) <= nodes
    ensures var r := ColumnsRun(records, j, dict, expanded, nodes);
            r.Some? && r.value.value == Filled(records, 6) && r.value.after.rest == []
    decreases 6 - j
  {
    hide *;
    if j < 6 {
      SumStep(records, j, FieldExpands);
      SumStep(records, j, FieldNodes);
      ColumnStep(records, j, dict, expanded, nodes);
      ColumnsBack(records, j + 1, dict, expanded + SumAt(records, j, FieldExpands), nodes - SumAt(records, j, FieldNodes));
    } else {
      ColumnsEnd(records, dict, expanded, nodes);
    }
  }

  lemma {:induction false} FilledAll(records: seq<Observation>)
    ensures Objects(Filled(records, 6)) == Values(records)
  {
    hide Envelope, Build, ToValue;
    if records != [] {
      FilledAll(records[1..]);
      ToValueIs(records[0]);
      assert Envelope(records[0])[..6] == Envelope(records[0]);
      assert Filled(records, 6)[1..] == Filled(records[1..], 6);
    }
  }

  lemma {:induction false} FilledNone(records: seq<Observation>)
    ensures Filled(records, 0) == Blank(|records|)
  {
    hide Envelope;
    if records != [] {
      FilledNone(records[1..]);
      assert Build([]) == [];
    }
  }

  // ---------------------------------------------------------------- rows

  lemma {:induction false} ValuesFit(records: seq<Observation>)
    requires Sound(records)
    ensures FitsItems(Values(records), []) && NestingItems(Values(records)) <= MAX_DEPTH
  {
    hide Typed, Valid, Nesting, Document, Fits, ToValue;
    if records != [] {
      ValueFits(records[0], []);
      ValueNesting(records[0]);
      ValuesFit(records[1..]);
      assert Values(records)[1..] == Values(records[1..]);
    }
  }

  lemma {:induction false} ValuesPrinted(records: seq<Observation>, fl: Floats)
    ensures |PrintItems(Values(records), fl)| == |PrintItems(Documents(records), fl)|
  {
    hide Print, ToValue, Document;
    if records != [] {
      ValuePrinted(records[0], fl);
      ValuesPrinted(records[1..], fl);
      assert Values(records)[1..] == Values(records[1..]) && Documents(records)[1..] == Documents(records[1..]);
      assert |Documents(records)| == 1 + |Documents(records[1..])|;
      DocumentsLength(records[1..]);
    }
  }

  lemma {:induction false} DocumentsLength(records: seq<Observation>)
    ensures |Documents(records)| == |records|
  {
    if records != [] {
      DocumentsLength(records[1..]);
    }
  }

  // ---------------------------------------------------------------- the whole frame

  lemma CanonicalSound(records: seq<Observation>, lib: Library)
    requires Canonical(records, lib) && FloatsOk(lib.fl) && forall i :: 0 <= i < |records| ==> Typed(records[i])
    ensures Sound(records)
  {
    hide Typed, Valid, FloatsOk, Document, Nesting;
    forall i | 0 <= i < |records|
      ensures Nesting(Document(records[i])) <= MAX_DEPTH
    {
      assert Decodable(Text(records[i], lib.fl), lib);
      PrintedDepth(Document(records[i]), lib.fl, MAX_FRAME, MAX_DEPTH);
    }
  }

  /** No reader budget is ever short: what a batch costs is bounded by its text. */
  lemma BodyBack(columns: bool, records: seq<Observation>, dict: seq<Bytes>, fl: Floats)
    requires Sound(records) && FloatsOk(fl) && |dict| <= MAX_ENTRIES && |BatchText(records, fl)| <= MAX_INPUT
    ensures var r := ReadBody(Cursor(Body(columns, Values(records), dict), 0, MAX_INPUT), columns, |records|, dict);
      r.Some? && r.value.value == Values(records) && r.value.after.rest == []
  {
    hide Sound, FloatsOk, Document, Print, ToValue, Columns, Filled, ReadValue, Enc;
    assert |PrintItems(Documents(records), fl)| <= MAX_INPUT by {
      BatchLength(records, fl);
    }
    if columns {
      forall f: Field
        ensures FieldExpands(f) <= 1 * (|Print(f.value, fl)| + 1) && FieldNodes(f) <= 1 * (|Print(f.value, fl)| + 1)
      {
        CostPrinted(f.value, fl);
      }
      SumPrinted(records, FieldExpands, 1, fl);
      SumPrinted(records, FieldNodes, 1, fl);
      assert Columns()[0..] == Columns();
      ColumnsBack(records, 0, dict, 0, MAX_INPUT);
      FilledNone(records);
      FilledAll(records);
    } else {
      ValuesFit(records);
      ValuesPrinted(records, fl);
      CostPrintedItems(Values(records), fl);
      ItemsBack(Values(records), [], dict, [], 0, 0, MAX_INPUT, []);
      assert Body(columns, Values(records), dict) + [] == Body(columns, Values(records), dict);
      assert [] + Values(records) == Values(records);
    }
  }

  lemma BatchLength(records: seq<Observation>, fl: Floats)
    ensures |BatchText(records, fl)| == |PrintItems(Documents(records), fl)| + 2
  {
  }

  lemma {:induction false} RecordsBack(records: seq<Observation>, fl: Floats)
    requires Sound(records)
    ensures FromValues(Values(records), fl) == Some(records)
  {
    hide ToValue, FromValue, Sound;
    if records != [] {
      SoundHead(records);
      RecordBack(records[0], fl);
      RecordsBack(records[1..], fl);
      assert Values(records)[1..] == Values(records[1..]);
      assert records == [records[0]] + records[1..];
    }
  }

  lemma SoundHead(records: seq<Observation>)
    requires Sound(records) && records != []
    ensures Typed(records[0]) && Valid(records[0]) && Sound(records[1..])
  {
    hide Typed, Valid, Nesting, Document;
  }

  lemma RecordBack(o: Observation, fl: Floats)
    requires Typed(o) && Valid(o)
    ensures FromValue(ToValue(o), fl) == Some(o)
  {
    hide ToValue, FromValue, Typed, ValidData, TextOk, Registry;
    MetricFinite(o.data);
    ValueRoundTrip(o, fl);
  }

  lemma MetricFinite(d: Data)
    ensures ValidData(d) && d.Metric? ==> Finite(d.bits)
  {
  }

  lemma DictionaryOk(columns: bool, records: seq<Observation>)
    requires Sound(records)
    ensures DictOk(Dictionary(columns, Values(records)))
  {
    hide Sound, Values;
    ValuesFit(records);
    GatheredItemsOk(Values(records), [], []);
  }

  lemma {:induction false} ColumnsLength(records: seq<Observation>, j: nat, dict: seq<Bytes>)
    requires Sound(records) && j <= 6
    ensures |EncColumns(Values(records), Columns()[j..], dict)| == SumFrom(records, j, FieldLength(dict))
    decreases 6 - j
  {
    hide EncColumn, Columns, Sound;
    if j < 6 {
      SumStep(records, j, FieldLength(dict));
      hide SumFrom, SumAt;
      assert Columns()[j..][1..] == Columns()[j + 1..] && Columns()[j..][0] == Columns()[j];
      ColumnLength(records, j, dict);
      ColumnsLength(records, j + 1, dict);
    } else {
      SumEnd(records, FieldLength(dict));
    }
  }

  lemma {:induction false} ColumnLength(records: seq<Observation>, j: nat, dict: seq<Bytes>)
    requires Sound(records) && j < 6
    ensures |EncColumn(Values(records), Columns()[j], dict)| == SumAt(records, j, FieldLength(dict))
  {
    hide Enc, Columns, At, Envelope, ToValue, Typed, Valid, Document, Nesting;
    if records != [] {
      EnvelopeField(records[0], j);
      ColumnLength(records[1..], j, dict);
      assert Values(records)[1..] == Values(records[1..]);
    }
  }

  lemma BodyLength(columns: bool, records: seq<Observation>, dict: seq<Bytes>, fl: Floats)
    requires Sound(records) && FloatsOk(fl)
    ensures |Body(columns, Values(records), dict)| <= 3 * (|PrintItems(Documents(records), fl)| + 1)
  {
    hide Sound, FloatsOk, Document, Print, ToValue, Columns, Enc;
    if columns {
      forall f: Field
        ensures FieldLength(dict)(f) <= 3 * (|Print(f.value, fl)| + 1)
      {
        EncPrinted(f.value, f.key, dict, fl);
      }
      SumPrinted(records, FieldLength(dict), 3, fl);
      assert Columns()[0..] == Columns();
      ColumnsLength(records, 0, dict);
    } else {
      ValuesPrinted(records, fl);
      EncPrintedItems(Values(records), [], dict, fl);
    }
  }

  lemma {:induction false} StringsLength(dict: seq<Bytes>)
    ensures |EncStrings(dict)| == 4 * |dict| + |Concat(dict)|
  {
    if dict != [] {
      StringsLength(dict[1..]);
    }
  }

  /** The frame limit never refuses a canonical batch. */
  lemma FrameFits(columns: bool, records: seq<Observation>, lib: Library)
    requires Canonical(records, lib) && FloatsOk(lib.fl) && forall i :: 0 <= i < |records| ==> Typed(records[i])
    ensures |Frame(columns, records)| <= MAX_FRAME_BYTES
  {
    CanonicalSound(records, lib);
    DictionaryOk(columns, records);
    var values := Values(records);
    var dict := Dictionary(columns, values);
    hide Body, EncStrings, Dictionary, Magic, BatchText, Sound, Values, Le32, FloatsOk;
    StringsLength(dict);
    BodyLength(columns, records, dict, lib.fl);
    BatchLength(records, lib.fl);
  }

  /** Decoding a row or column frame gives back the very records that were encoded. */
  lemma FrameRoundTrip(columns: bool, records: seq<Observation>, lib: Library)
    requires Canonical(records, lib) && FloatsOk(lib.fl) && forall i :: 0 <= i < |records| ==> Typed(records[i])
    ensures DecodeFrame(Frame(columns, records), lib) == Some(records)
  {
    FrameFits(columns, records, lib);
    CanonicalSound(records, lib);
    BatchBack(columns, records, lib.fl);
    RecordsBack(records, lib.fl);
    var code: byte := if columns then 2 else 1;
    var payload := Payload(columns, records);
    hide Payload, ReadBatch, Canonical, FloatsOk, TakeInt, Frame, Magic, Sound, FromValues, Values, Typed, BatchText;
    FrameParts(columns, records);
    Cut(Magic(), [code] + payload);
    ByteBack(code, payload, 0, MAX_INPUT);
  }

  lemma Cut(head: Bytes, rest: Bytes)
    ensures |head + rest| >= |head| && (head + rest)[..|head|] == head && (head + rest)[|head|..] == rest
  {
  }

  /** What follows the codec byte. */
  function Payload(columns: bool, records: seq<Observation>): Bytes {
    var values := Values(records);
    var dict := Dictionary(columns, values);
    Le32(|dict|) + (EncStrings(dict) + (Le32(|records|) + Body(columns, values, dict)))
  }

  lemma FrameParts(columns: bool, records: seq<Observation>)
    ensures Frame(columns, records) == Magic() + ([if columns then 2 else 1] + Payload(columns, records))
  {
    hide Body, EncStrings, Dictionary, Magic, Values, Le32;
  }

  lemma BatchBack(columns: bool, records: seq<Observation>, fl: Floats)
    requires Sound(records) && FloatsOk(fl) && 0 < |records| <= 32 && |BatchText(records, fl)| <= MAX_INPUT
    ensures var r := ReadBatch(Cursor(Payload(columns, records), 0, MAX_INPUT), columns);
      r.Some? && r.value.value == Values(records) && r.value.after.rest == []
  {
    var values := Values(records);
    var dict := Dictionary(columns, values);
    var body := Body(columns, values, dict);
    DictionaryOk(columns, records);
    assert |dict| <= MAX_ENTRIES;
    hide Sound, FloatsOk, Body, EncStrings, ReadBody, ReadDictionary, DictOk, Dictionary, Le32, BatchText, TakeInt, Values, Utf8, Concat;
    DictionaryBack(dict, Le32(|records|) + body);
    Le32IntBack(|records|, body, 0, MAX_INPUT);
    BodyBack(columns, records, dict, fl);
  }
}
