/** Whole frames: `canonical`, `encode` and `decode` of xtask/src/representation/mod.rs. */
module CodecFrames {
  import opened Common
  import opened Json
  import opened Observations
  import opened Binary
  import opened Codec
  import opened CodecBounds

  /** What is used of serde_json: its float texts, and what it reads from the bytes of a record or of an object. */
  datatype Library = Library(fl: Floats, parse: Bytes -> Option<Observation>, parseFields: Bytes -> Option<seq<Field>>)

  /** `fabric::observation::decode`. */
  predicate Decodable(text: Bytes, lib: Library) {
    && Shallow(text, MAX_FRAME, MAX_DEPTH)
    && lib.parse(text).Some? && Valid(lib.parse(text).value)
  }

  predicate Canonical(records: seq<Observation>, lib: Library) {
    && 0 < |records| <= 32
    && (forall i :: 0 <= i < |records| ==> Valid(records[i]) && Decodable(Text(records[i], lib.fl), lib))
    && |BatchText(records, lib.fl)| <= MAX_INPUT
  }

  // ---------------------------------------------------------------- encoding

  function Values(records: seq<Observation>): (r: seq<Value>)
    ensures |r| == |records|
    ensures forall i :: 0 <= i < |r| ==> r[i] == ToValue(records[i])
  {
    if records == [] then [] else [ToValue(records[0])] + Values(records[1..])
  }

  function Dictionary(columns: bool, values: seq<Value>): seq<Bytes> {
    if columns then GatheredItems(values, [], []) else []
  }

  function EncStrings(dict: seq<Bytes>): Bytes {
    if dict == [] then [] else EncString(dict[0]) + EncStrings(dict[1..])
  }

  /** Indexing a JSON value by a key it lacks gives null. */
  function At(v: Value, key: Bytes): Value {
    if v.Object? then
      match Get(v.fields, key)
      case Some(x) => x
      case None => Null
    else Null
  }

  function EncColumn(values: seq<Value>, key: Bytes, dict: seq<Bytes>): Bytes {
    if values == [] then [] else Enc(At(values[0], key), key, dict) + EncColumn(values[1..], key, dict)
  }

  function EncColumns(values: seq<Value>, keys: seq<Bytes>, dict: seq<Bytes>): Bytes {
    if keys == [] then [] else EncColumn(values, keys[0], dict) + EncColumns(values, keys[1..], dict)
  }

  function Body(columns: bool, values: seq<Value>, dict: seq<Bytes>): Bytes {
    if columns then EncColumns(values, Columns(), dict) else EncItems(values, [], dict)
  }

  /** The row or column frame of a batch. */
  function Frame(columns: bool, records: seq<Observation>): Bytes {
    var values := Values(records);
    var dict := Dictionary(columns, values);
    Magic() + [if columns then 2 else 1] + Le32(|dict|) + EncStrings(dict) + Le32(|records|) + Body(columns, values, dict)
  }

  // ---------------------------------------------------------------- decoding

  function ReadDict(c: Cursor, start: nat, n: nat, dict: seq<Bytes>): Option<Read<seq<Bytes>>>
    requires start <= c.expanded <= start + MAX_DICTIONARY
    decreases n
  {
    if n == 0 then Some(Read(dict, c))
    else
      var s :- ReadString(c, MAX_DICTIONARY - (c.expanded - start));
      ReadDict(s.after, start, n - 1, dict + [s.value])
  }

  function ReadColumn(c: Cursor, dict: seq<Bytes>, key: Bytes, rows: seq<seq<Field>>): Option<Read<seq<seq<Field>>>>
    decreases |rows|
  {
    if rows == [] then Some(Read([], c))
    else
      var v :- ReadValue(c, dict, 0);
      var more :- ReadColumn(v.after, dict, key, rows[1..]);
      Some(Read([Put(rows[0], key, v.value)] + more.value, more.after))
  }

  /** Map insertion that replaces what was there. */
  function Put(fields: seq<Field>, key: Bytes, value: Value): seq<Field> {
    if fields == [] || Less(key, fields[0].key) then [Field(key, value)] + fields
    else if fields[0].key == key then [Field(key, value)] + fields[1..]
    else [fields[0]] + Put(fields[1..], key, value)
  }

  function ReadColumns(c: Cursor, dict: seq<Bytes>, keys: seq<Bytes>, rows: seq<seq<Field>>): Option<Read<seq<seq<Field>>>>
    decreases |keys|
  {
    if keys == [] then Some(Read(rows, c))
    else
      var filled :- ReadColumn(c, dict, keys[0], rows);
      ReadColumns(filled.after, dict, keys[1..], filled.value)
  }

  function Objects(rows: seq<seq<Field>>): seq<Value> {
    if rows == [] then [] else [Object(rows[0])] + Objects(rows[1..])
  }

  function Blank(count: nat): seq<seq<Field>> {
    seq(count, _ => [])
  }

  function ReadBody(c: Cursor, columns: bool, count: nat, dict: seq<Bytes>): Option<Read<seq<Value>>> {
    if columns then
      var rows :- ReadColumns(c, dict, Columns(), Blank(count));
      Some(Read(Objects(rows.value), rows.after))
    else ReadItems(c, dict, 0, count, [])
  }

  function ReadDictionary(c: Cursor): Option<Read<seq<Bytes>>> {
    var n :- TakeInt(c, 4);
    if n.value > MAX_ENTRIES then None
    else
      var dict :- ReadDict(n.after, n.after.expanded, n.value, []);
      Some(Read(dict.value, dict.after.(expanded := 0)))
  }

  /** Everything after the codec byte of a row or column frame. */
  function ReadBatch(c: Cursor, columns: bool): Option<Read<seq<Value>>> {
    var dict :- ReadDictionary(c);
    var count :- TakeInt(dict.after, 4);
    if count.value == 0 || count.value > 32 then None
    else ReadBody(count.after, columns, count.value, dict.value)
  }

  function FromValues(values: seq<Value>, fl: Floats): Option<seq<Observation>> {
    if values == [] then Some([])
    else
      var o :- FromValue(values[0], fl);
      var more :- FromValues(values[1..], fl);
      Some([o] + more)
  }

  /** `decode` of a row or column frame. */
  function DecodeFrame(bytes: Bytes, lib: Library): Option<seq<Observation>> {
    if |bytes| > MAX_FRAME_BYTES || |bytes| < |Magic()| || bytes[..|Magic()|] != Magic() then None
    else
      var code :- TakeInt(Cursor(bytes[|Magic()|..], 0, MAX_INPUT), 1);
      if code.value != 1 && code.value != 2 then None
      else
        var batch :- ReadBatch(code.after, code.value == 2);
        if batch.after.rest != [] then None
        else
          var records :- FromValues(batch.value, lib.fl);
          if Canonical(records, lib) then Some(records) else None
  }

  // ---------------------------------------------------------------- the dictionary read back

  lemma {:induction false} DictBack(dict: seq<Bytes>, acc: seq<Bytes>, tail: Bytes, start: nat, expanded: nat, nodes: nat)
    requires forall i :: 0 <= i < |dict| ==> Utf8(dict[i])
    requires start <= expanded && expanded - start + |Concat(dict)| <= MAX_DICTIONARY && expanded + |Concat(dict)| <= MAX_INPUT
    ensures ReadDict(Cursor(EncStrings(dict) + tail, expanded, nodes), start, |dict|, acc)
         == Some(Read(acc + dict, Cursor(tail, expanded + |Concat(dict)|, nodes)))
    decreases |dict|
  {
    hide Utf8, EncString, ReadString;
    assert acc + [] == acc && [] + tail == tail;
    if dict != [] {
      var s, more := dict[0], dict[1..];
      assert EncStrings(dict) + tail == EncString(s) + (EncStrings(more) + tail);
      StringBack(s, MAX_DICTIONARY - (expanded - start), EncStrings(more) + tail, expanded, nodes);
      DictBack(more, acc + [s], tail, start, expanded + |s|, nodes);
      assert acc + [s] + more == acc + dict;
    }
  }

  lemma DictionaryBack(dict: seq<Bytes>, tail: Bytes)
    requires DictOk(dict)
    ensures ReadDictionary(Cursor(Le32(|dict|) + (EncStrings(dict) + tail), 0, MAX_INPUT))
         == Some(Read(dict, Cursor(tail, 0, MAX_INPUT)))
  {
    hide EncStrings, ReadDict, TakeInt, Le32, Utf8;
    Le32IntBack(|dict|, EncStrings(dict) + tail, 0, MAX_INPUT);
    DictBack(dict, [], tail, 0, 0, MAX_INPUT);
    assert [] + dict == dict;
  }

  lemma {:induction false} GatheredOk(v: Value, key: Bytes, dict: seq<Bytes>)
    requires Fits(v, key) && DictOk(dict)
    ensures DictOk(Gathered(v, key, dict))
    decreases v, 0
  {
    hide Utf8, Interned, EnumKey, Enums, Sorted, NumOk;
    match v
    case String(s) => ConcatSnoc(dict, s);
    case Array(items) => GatheredItemsOk(items, key, dict);
    case Object(fields) => GatheredFieldsOk(fields, dict);
    case _ =>
  }

  lemma {:induction false} GatheredItemsOk(items: seq<Value>, key: Bytes, dict: seq<Bytes>)
    requires FitsItems(items, key) && DictOk(dict)
    ensures DictOk(GatheredItems(items, key, dict))
    decreases items, 0
  {
    hide DictOk;
    if items != [] {
      GatheredOk(items[0], key, dict);
      GatheredItemsOk(items[1..], key, Gathered(items[0], key, dict));
    }
  }

  lemma {:induction false} GatheredFieldsOk(fields: seq<Field>, dict: seq<Bytes>)
    requires FitsFields(fields) && DictOk(dict)
    ensures DictOk(GatheredFields(fields, dict))
    decreases fields, 0
  {
    hide DictOk, Utf8, Keys;
    if fields != [] {
      GatheredOk(fields[0].value, fields[0].key, dict);
      GatheredFieldsOk(fields[1..], Gathered(fields[0].value, fields[0].key, dict));
    }
  }

  // ---------------------------------------------------------------- what the dictionary holds

  /** The string occurs somewhere under an interned key that is not an enumerated one. */
  predicate Occurs(v: Value, key: Bytes, s: Bytes)
    decreases v, 0
  {
    match v
    case String(t) => t == s && Interned(key) && !EnumKey(key)
    case Array(items) => OccursItems(items, key, s)
    case Object(fields) => OccursFields(fields, s)
    case _ => false
  }

  predicate OccursItems(items: seq<Value>, key: Bytes, s: Bytes)
    decreases items, 0
  {
    items != [] && (Occurs(items[0], key, s) || OccursItems(items[1..], key, s))
  }

  predicate OccursFields(fields: seq<Field>, s: Bytes)
    decreases fields, 0
  {
    fields != [] && (Occurs(fields[0].value, fields[0].key, s) || OccursFields(fields[1..], s))
  }

  /** No room for this string. */
  predicate NoRoom(dict: seq<Bytes>, s: Bytes) {
    |dict| >= MAX_ENTRIES || |Concat(dict)| + |s| > MAX_DICTIONARY
  }

  /** The larger dictionary starts with the smaller and holds, besides, what occurs, unless there was no room for it. */
  ghost predicate Holds(before: seq<Bytes>, after: seq<Bytes>, occurs: Bytes -> bool) {
    && before <= after
    && (forall s :: s in after ==> s in before || occurs(s))
    && (forall s :: occurs(s) ==> s in after || NoRoom(after, s))
  }

  lemma {:induction false} ConcatGrows(a: seq<Bytes>, b: seq<Bytes>)
    requires a <= b
    ensures |Concat(a)| <= |Concat(b)|
  {
    if a != [] {
      assert b[0] == a[0] && a[1..] <= b[1..];
      ConcatGrows(a[1..], b[1..]);
    }
  }

  lemma HoldsJoin(a: seq<Bytes>, b: seq<Bytes>, c: seq<Bytes>, first: Bytes -> bool, second: Bytes -> bool)
    requires Holds(a, b, first) && Holds(b, c, second)
    ensures Holds(a, c, s => first(s) || second(s))
  {
    ConcatGrows(b, c);
  }

  /** Gathering puts into the dictionary, behind what is there, exactly the strings that occur, as far as there is room. */
  lemma {:induction false} GatheredHolds(v: Value, key: Bytes, dict: seq<Bytes>)
    ensures Holds(dict, Gathered(v, key, dict), s => Occurs(v, key, s))
    decreases v, 0
  {
    hide Interned, EnumKey, Concat;
    match v
    case Array(items) => GatheredItemsHold(items, key, dict);
    case Object(fields) => GatheredFieldsHold(fields, dict);
    case _ =>
  }

  lemma {:induction false} GatheredItemsHold(items: seq<Value>, key: Bytes, dict: seq<Bytes>)
    ensures Holds(dict, GatheredItems(items, key, dict), s => OccursItems(items, key, s))
    decreases items, 0
  {
    hide Gathered, Occurs, Concat, NoRoom;
    if items != [] {
      var middle := Gathered(items[0], key, dict);
      GatheredHolds(items[0], key, dict);
      GatheredItemsHold(items[1..], key, middle);
      HoldsJoin(dict, middle, GatheredItems(items[1..], key, middle), s => Occurs(items[0], key, s), s => OccursItems(items[1..], key, s));
    }
  }

  lemma {:induction false} GatheredFieldsHold(fields: seq<Field>, dict: seq<Bytes>)
    ensures Holds(dict, GatheredFields(fields, dict), s => OccursFields(fields, s))
    decreases fields, 0
  {
    hide Gathered, Occurs, Concat, NoRoom;
    if fields != [] {
      var f := fields[0];
      var middle := Gathered(f.value, f.key, dict);
      GatheredHolds(f.value, f.key, dict);
      GatheredFieldsHold(fields[1..], middle);
      HoldsJoin(dict, middle, GatheredFields(fields[1..], middle), s => Occurs(f.value, f.key, s), s => OccursFields(fields[1..], s));
    }
  }

  // ---------------------------------------------------------------- a column at a time

  /** The six envelope fields of a record, in column order. */
  function Envelope(o: Observation): (r: seq<Field>)
    ensures |r| == 6
  {
    EnvelopeFields(o, Object(Build(IdentityFields(o.identity))), Object(Build(DataFields(o.data))))
  }

  function Sum(fields: seq<Field>, m: Field -> nat): nat {
    if fields == [] then 0 else m(fields[0]) + Sum(fields[1..], m)
  }

  /** A measure summed over column j, and over the columns from j on. */
  function SumAt(records: seq<Observation>, j: nat, m: Field -> nat): nat
    requires j < 6
  {
    if records == [] then 0 else m(Envelope(records[0])[j]) + SumAt(records[1..], j, m)
  }

  function SumFrom(records: seq<Observation>, j: nat, m: Field -> nat): nat
    requires j <= 6
  {
    if records == [] then 0 else Sum(Envelope(records[0])[j..], m) + SumFrom(records[1..], j, m)
  }

  lemma {:induction false} SumStep(records: seq<Observation>, j: nat, m: Field -> nat)
    requires j < 6
    ensures SumFrom(records, j, m) == SumAt(records, j, m) + SumFrom(records, j + 1, m)
  {
    hide Envelope;
    if records != [] {
      var e := Envelope(records[0]);
      assert e[j..][1..] == e[j + 1..];
      SumStep(records[1..], j, m);
    }
  }

  lemma {:induction false} SumEnd(records: seq<Observation>, m: Field -> nat)
    ensures SumFrom(records, 6, m) == 0
  {
    hide Envelope;
    if records != [] {
      SumEnd(records[1..], m);
    }
  }

  lemma {:induction false} SumWeight(fields: seq<Field>, m: Field -> nat, c: nat, fl: Floats)
    requires forall f :: m(f) <= c * (|Print(f.value, fl)| + 1)
    ensures Sum(fields, m) <= c * Weight(fields, fl)
  {
    hide Print, Quoted;
    if fields != [] {
      SumWeight(fields[1..], m, c, fl);
      var p := |Print(fields[0].value, fl)| + 1;
      assert FieldWeight(fields[0], fl) >= p;
      Monotone(c, p, FieldWeight(fields[0], fl));
      assert c * Weight(fields, fl) == c * FieldWeight(fields[0], fl) + c * Weight(fields[1..], fl);
    }
  }

  lemma Monotone(c: nat, a: nat, b: nat)
    requires a <= b
    ensures c * a <= c * b
  {
  }

  lemma EnvelopeWeight(o: Observation, fl: Floats)
    ensures Weight(Envelope(o), fl) <= |Text(o, fl)|
  {
    hide Print, Weight, EnvelopeFields, IdentityFields, DataFields;
    ValuePrinted(o, fl);
    WeightBuild(Envelope(o), fl);
    WeightPrinted(Build(Envelope(o)), fl);
    ObjectPrinted(Build(Envelope(o)), fl);
  }

  /** Any measure of at most c per printed byte and separator is at most c per byte of the batch. */
  lemma {:induction false} SumPrinted(records: seq<Observation>, m: Field -> nat, c: nat, fl: Floats)
    requires forall f :: m(f) <= c * (|Print(f.value, fl)| + 1)
    ensures SumFrom(records, 0, m) <= c * |PrintItems(Documents(records), fl)|
  {
    hide Print, Envelope, Document, Weight, PrintItems, Documents, Sum;
    if records != [] {
      var o, more := records[0], records[1..];
      SumPrinted(more, m, c, fl);
      SumWeight(Envelope(o), m, c, fl);
      EnvelopeWeight(o, fl);
      assert Envelope(o)[0..] == Envelope(o);
      BatchStep(records, fl);
      var text, rest := |Text(o, fl)|, |PrintItems(Documents(more), fl)|;
      Monotone(c, Weight(Envelope(o), fl), text);
      Monotone(c, text + rest, |PrintItems(Documents(records), fl)|);
      Distribute(c, text, rest);
    }
  }

  lemma Distribute(c: nat, a: nat, b: nat)
    ensures c * (a + b) == c * a + c * b
  {
  }

  lemma BatchStep(records: seq<Observation>, fl: Floats)
    requires records != []
    ensures |PrintItems(Documents(records), fl)| >= |Text(records[0], fl)| + |PrintItems(Documents(records[1..]), fl)|
  {
    hide Print, Document;
    assert Documents(records)[1..] == Documents(records[1..]);
  }
}
