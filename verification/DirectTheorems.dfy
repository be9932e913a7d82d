/** Direct rows lose nothing, fit their frame, cannot be cut or extended; streaming validation is the materialising one. */
module DirectTheorems {
  import opened Common
  import opened Json
  import opened Observations
  import opened Binary
  import opened Codec
  import opened CodecBounds
  import opened CodecFrames
  import opened CodecTheorems
  import opened CodecPrefix
  import opened Direct

  // ---------------------------------------------------------------- validate is canonical

  lemma DocumentsNesting(records: seq<Observation>, n: nat)
    requires forall i :: 0 <= i < |records| ==> Nesting(Document(records[i])) <= n
    ensures NestingItems(Documents(records)) <= n
    decreases records
  {
    hide Document, Nesting;
    if records != [] {
      DocumentsNesting(records[1..], n);
      assert Documents(records)[1..] == Documents(records[1..]);
    }
  }

  lemma BatchNesting(records: seq<Observation>)
    ensures Nesting(Array(Documents(records))) == 1 + NestingItems(Documents(records))
  {
  }

  /** Streaming to a counter accepts the same batches as building every text, whenever parsing undoes the printing of records that fit. */
  lemma ValidateIsCanonical(records: seq<Observation>, lib: Library)
    requires FloatsOk(lib.fl)
    requires forall i :: 0 <= i < |records| && RecordFits(records[i], lib.fl) ==>
               lib.parse(Text(records[i], lib.fl)) == Some(records[i])
    ensures Validated(records, lib.fl) <==> Canonical(records, lib)
  {
    hide Valid, FloatsOk, Document, Shallow, Nesting, BatchText, Text;
    if |records| > 0 && forall i :: 0 <= i < |records| ==> RecordFits(records[i], lib.fl) {
      forall i | 0 <= i < |records|
        ensures Nesting(Document(records[i])) <= MAX_DEPTH
      {
        assert RecordFits(records[i], lib.fl);
        RecordDepth(records[i], lib.fl);
      }
      DocumentsNesting(records, MAX_DEPTH);
      BatchNesting(records);
      BatchDepth(records, lib.fl);
    }
    if Canonical(records, lib) {
      forall i | 0 <= i < |records|
        ensures RecordFits(records[i], lib.fl)
      {
        assert Decodable(Text(records[i], lib.fl), lib);
      }
    }
  }

  lemma RecordDepth(o: Observation, fl: Floats)
    requires FloatsOk(fl)
    ensures Shallow(Text(o, fl), MAX_FRAME, MAX_DEPTH) <==> |Text(o, fl)| <= MAX_FRAME && Nesting(Document(o)) <= MAX_DEPTH
  {
    hide Print, Document, Shallow, FloatsOk, Nesting;
    PrintedDepth(Document(o), fl, MAX_FRAME, MAX_DEPTH);
  }

  lemma BatchDepth(records: seq<Observation>, fl: Floats)
    requires FloatsOk(fl)
    ensures Shallow(BatchText(records, fl), MAX_INPUT, MAX_DEPTH + 1)
       <==> |BatchText(records, fl)| <= MAX_INPUT && Nesting(Array(Documents(records))) <= MAX_DEPTH + 1
  {
    hide Print, Documents, Shallow, FloatsOk, Nesting;
    PrintedDepth(Array(Documents(records)), fl, MAX_INPUT, MAX_DEPTH + 1);
  }

  // ---------------------------------------------------------------- printed JSON is UTF-8

  predicate Ascii(bytes: Bytes) {
    forall k :: 0 <= k < |bytes| ==> bytes[k] < 0x80
  }

  ghost predicate FloatsAscii(fl: Floats) {
    forall bits :: Ascii(fl.text(bits))
  }

  lemma {:induction false} AsciiUtf8(a: Bytes, b: Bytes)
    requires Ascii(a) && Utf8(b)
    ensures Utf8(a + b)
  {
    if a == [] {
      assert a + b == b;
    } else {
      assert (a + b)[1..] == a[1..] + b;
      AsciiUtf8(a[1..], b);
    }
  }

  lemma {:induction false} Utf8Join(a: Bytes, b: Bytes)
    requires Utf8(a) && Utf8(b)
    ensures Utf8(a + b)
    decreases |a|
  {
    if a == [] {
      assert a + b == b;
    } else {
      var n := if a[0] < 0x80 then 1 else if a[0] <= 0xDF then 2 else if a[0] <= 0xEF then 3 else 4;
      assert (a + b)[n..] == a[n..] + b;
      Utf8Join(a[n..], b);
    }
  }

  lemma EscapeAscii(b: byte)
    requires b < 0x80
    ensures Ascii(Escape(b))
  {
  }

  lemma {:induction false} EscapedUtf8(s: Bytes)
    requires Utf8(s)
    ensures Utf8(Escaped(s))
    decreases |s|
  {
    if s == [] {
    } else if s[0] < 0x80 {
      EscapeAscii(s[0]);
      EscapedUtf8(s[1..]);
      AsciiUtf8(Escape(s[0]), Escaped(s[1..]));
    } else {
      var n := if s[0] <= 0xDF then 2 else if s[0] <= 0xEF then 3 else 4;
      EscapedUtf8(s[n..]);
      assert Utf8(s[..n]) by {
        assert s[..n][n..] == [];
      }
      assert s == s[..n] + s[n..];
      EscapedJoin(s[..n], s[n..]);
      HighEscaped(s[..n]);
      Utf8Join(s[..n], Escaped(s[n..]));
    }
  }

  /** Bytes outside ASCII are printed as they are. */
  lemma {:induction false} HighEscaped(s: Bytes)
    requires forall k :: 0 <= k < |s| ==> s[k] >= 0x80
    ensures Escaped(s) == s
  {
    if s != [] {
      HighEscaped(s[1..]);
      assert Escape(s[0]) == [s[0]];
    }
  }

  lemma {:induction false} EscapedJoin(a: Bytes, b: Bytes)
    ensures Escaped(a + b) == Escaped(a) + Escaped(b)
  {
    hide Escape;
    if a == [] {
      assert a + b == b;
    } else {
      assert (a + b)[1..] == a[1..] + b;
      EscapedJoin(a[1..], b);
    }
  }

  lemma QuotedUtf8(s: Bytes)
    requires Utf8(s)
    ensures Utf8(Quoted(s))
  {
    EscapedUtf8(s);
    hide Escaped;
    assert Utf8([QUOTE]) by {
      assert [QUOTE][1..] == [];
    }
    Utf8Join(Escaped(s), [QUOTE]);
    AsciiUtf8([QUOTE], Escaped(s) + [QUOTE]);
    assert Quoted(s) == [QUOTE] + (Escaped(s) + [QUOTE]);
  }

  lemma OnlyAscii(a: Bytes)
    requires Ascii(a)
    ensures Utf8(a)
  {
    AsciiUtf8(a, []);
    assert a + [] == a;
  }

  lemma WordsAscii()
    ensures Ascii(B("null")) && Ascii(B("true")) && Ascii(B("false"))
  {
    assert forall k :: 0 <= k < 4 ==> B("null")[k] < 0x80;
    assert forall k :: 0 <= k < 4 ==> B("true")[k] < 0x80;
    assert forall k :: 0 <= k < 5 ==> B("false")[k] < 0x80;
  }

  lemma {:induction false} DecimalAscii(n: nat)
    ensures Ascii(Decimal(n))
  {
    if n >= 10 {
      DecimalAscii(n / 10);
    }
  }

  /** `serde_json::to_string` yields a string: the text of well-formed values is UTF-8. */
  lemma {:induction false} PrintUtf8(v: Value, fl: Floats)
    requires ValueOk(v) && FloatsAscii(fl)
    ensures Utf8(Print(v, fl))
    decreases v, 0
  {
    hide Utf8, B, Quoted, Decimal;
    match v
    case Null => WordsAscii(); OnlyAscii(B("null"));
    case Bool(b) => WordsAscii(); OnlyAscii(B("true")); OnlyAscii(B("false"));
    case Number(n) =>
      if n.PosInt? { DecimalAscii(n.n); }
      if n.NegInt? { DecimalAscii(if n.m < 0 then -n.m else 0); }
      OnlyAscii(PrintNum(n, fl));
    case String(s) => QuotedUtf8(s);
    case Array(items) =>
      ItemsUtf8(items, fl);
      BracketsUtf8(OPEN_ARRAY, PrintItems(items, fl), CLOSE_ARRAY);
    case Object(fields) =>
      FieldsUtf8(fields, fl);
      BracketsUtf8(OPEN_OBJECT, PrintFields(fields, fl), CLOSE_OBJECT);
  }

  lemma BracketsUtf8(open: byte, body: Bytes, close: byte)
    requires Utf8(body) && open < 0x80 && close < 0x80
    ensures Utf8([open] + body + [close])
  {
    OnlyAscii([open]);
    OnlyAscii([close]);
    Utf8Join([open], body);
    Utf8Join([open] + body, [close]);
  }

  lemma {:induction false} ItemsUtf8(items: seq<Value>, fl: Floats)
    requires ItemsOk(items) && FloatsAscii(fl)
    ensures Utf8(PrintItems(items, fl))
    decreases items, 0
  {
    hide Print, ValueOk;
    if items != [] {
      var first, comma := Print(items[0], fl), if |items| > 1 then [COMMA] else [];
      PrintUtf8(items[0], fl);
      ItemsUtf8(items[1..], fl);
      OnlyAscii(comma);
      hide Utf8;
      Utf8Join(first, comma);
      Utf8Join(first + comma, PrintItems(items[1..], fl));
    }
  }

  lemma {:induction false} FieldsUtf8(fields: seq<Field>, fl: Floats)
    requires EachOk(fields) && FloatsAscii(fl)
    ensures Utf8(PrintFields(fields, fl))
    decreases fields, 0
  {
    hide Print, ValueOk, Quoted;
    if fields != [] {
      var key, first := Quoted(fields[0].key), Print(fields[0].value, fl);
      var comma := if |fields| > 1 then [COMMA] else [];
      QuotedUtf8(fields[0].key);
      OnlyAscii([COLON]);
      OnlyAscii(comma);
      PrintUtf8(fields[0].value, fl);
      FieldsUtf8(fields[1..], fl);
      hide Utf8;
      Utf8Join(key, [COLON]);
      Utf8Join(key + [COLON], first);
      Utf8Join(key + [COLON] + first, comma);
      Utf8Join(key + [COLON] + first + comma, PrintFields(fields[1..], fl));
    }
  }

  // ---------------------------------------------------------------- a row gives its record back

  /** Parsing the text of an object no deeper than observations may be returns its fields. */
  ghost predicate ParsesFields(lib: Library) {
    forall entries :: FieldsOk(entries) && Nesting(Object(entries)) <= MAX_DEPTH ==> lib.parseFields(Print(Object(entries), lib.fl)) == Some(entries)
  }

  lemma {:induction false} WeightMember(fields: seq<Field>, k: nat, fl: Floats)
    requires k < |fields|
    ensures FieldWeight(fields[k], fl) <= Weight(fields, fl)
  {
    hide FieldWeight;
    if k > 0 {
      WeightMember(fields[1..], k - 1, fl);
    }
  }

  lemma ObjectWeight(fields: seq<Field>, fl: Floats)
    requires fields != []
    ensures |Print(Object(fields), fl)| == Weight(fields, fl) + 1
  {
    WeightPrinted(fields, fl);
  }

  /** The fields of a JSON log, printed alone, are shorter and shallower than the record. */
  lemma FieldsInside(o: Observation, fl: Floats)
    requires o.data.JsonLog?
    ensures |Print(Object(o.data.entries), fl)| <= |Text(o, fl)| && Nesting(Object(o.data.entries)) <= Nesting(Document(o))
  {
    hide B, Weight, NestingFields, IdentityFields, Quoted;
    var data := DataFields(o.data);
    var fs := EnvelopeFields(o, Object(IdentityFields(o.identity)), Object(data));
    WeightMember(data, 1, fl);
    ObjectWeight(data, fl);
    WeightMember(fs, 5, fl);
    ObjectWeight(fs, fl);
    NestingMember(data, NestingFields(data));
    NestingMember(fs, NestingFields(fs));
    assert data[1].value == Object(o.data.entries) && data[1] in data && fs[5].value == Object(data) && fs[5] in fs;
    ObjectNesting(data);
    ObjectNesting(fs);
    hide Nesting, Print;
  }

  lemma PartsBack(o: Observation, lib: Library)
    requires Typed(o) && RecordFits(o, lib.fl) && FloatsOk(lib.fl) && ParsesFields(lib)
    ensures FromParts(ToParts(o.data, lib.fl), lib) == Some(o.data)
  {
    hide Utf8, FieldsOk, Shallow, Print, FloatsOk, Text, Document, TextOk, Finite, Nonnegative;
    if o.data.JsonLog? {
      FieldsInside(o, lib.fl);
      RecordDepth(o, lib.fl);
      PrintedDepth(Object(o.data.entries), lib.fl, MAX_FRAME, MAX_DEPTH);
      hide Nesting;
    }
  }

  lemma RowBack(o: Observation, lib: Library)
    requires Typed(o) && RecordFits(o, lib.fl) && FloatsOk(lib.fl) && ParsesFields(lib)
    ensures FromRow(ToRow(o, lib.fl), lib) == Some(o)
  {
    PartsBack(o, lib);
    hide FromParts, ToParts, DataOk, ValidData, Utf8, TextOk, Registry, FloatsOk, ParsesFields, Shallow, Text;
    var p := ToParts(o.data, lib.fl);
    assert p == Parts(p.kind, p.a, p.b, p.c, p.n, p.f, p.v);
  }

  // ---------------------------------------------------------------- what a row costs

  function StringsSize(strings: seq<Option<Bytes>>): nat {
    if strings == [] then 0 else (if strings[0].Some? then |strings[0].value| else 0) + StringsSize(strings[1..])
  }

  lemma FirstString(s: Option<Bytes>, more: seq<Option<Bytes>>)
    ensures StringsSize([s] + more) == StringsSize([s]) + StringsSize(more)
  {
    assert ([s] + more)[1..] == more;
    OneString(s);
  }

  lemma SevenStrings(a: Option<Bytes>, b: Option<Bytes>, c: Option<Bytes>, d: Option<Bytes>, e: Option<Bytes>, f: Option<Bytes>,
                     g: Option<Bytes>)
    ensures StringsSize([a, b, c, d, e, f, g])
         == StringsSize([a]) + StringsSize([b]) + StringsSize([c]) + StringsSize([d]) + StringsSize([e]) + StringsSize([f])
            + StringsSize([g])
  {
    hide StringsSize;
    FirstString(a, [b, c, d, e, f, g]);
    assert [a] + [b, c, d, e, f, g] == [a, b, c, d, e, f, g];
    FirstString(b, [c, d, e, f, g]);
    assert [b] + [c, d, e, f, g] == [b, c, d, e, f, g];
    FirstString(c, [d, e, f, g]);
    assert [c] + [d, e, f, g] == [c, d, e, f, g];
    FirstString(d, [e, f, g]);
    assert [d] + [e, f, g] == [d, e, f, g];
    FirstString(e, [f, g]);
    assert [e] + [f, g] == [e, f, g];
    FirstString(f, [g]);
    assert [f] + [g] == [f, g];
  }

  lemma OneString(s: Option<Bytes>)
    ensures StringsSize([s]) == if s.Some? then |s.value| else 0
  {
    assert [s][1..] == [];
  }

  /** Weight over the first n fields, which a fixed list unfolds. */
  lemma {:induction false} WeightSplit(fields: seq<Field>, n: nat, fl: Floats)
    requires n < |fields|
    ensures Weight(fields[n..], fl) == FieldWeight(fields[n], fl) + Weight(fields[n + 1..], fl)
  {
    hide FieldWeight;
    assert fields[n..][1..] == fields[n + 1..];
  }

  lemma QuotedLength(s: Bytes, fl: Floats)
    ensures |Print(String(s), fl)| >= |s| + 2
  {
    EscapedLength(s);
  }

  lemma IdentityWeight(i: Identity, fl: Floats)
    ensures |Print(Object(IdentityFields(i)), fl)| >= |i.producer| + |i.generation|
  {
    var fs := IdentityFields(i);
    ObjectWeight(fs, fl);
    QuotedLength(i.producer, fl);
    QuotedLength(i.generation, fl);
    WeightSplit(fs, 0, fl);
    WeightSplit(fs, 1, fl);
    hide B, Weight, Quoted, Print;
    assert fs[0..] == fs;
  }

  lemma DataWeight(d: Data, fl: Floats)
    ensures var p := ToParts(d, fl);
      |Print(Object(DataFields(d)), fl)| >= StringsSize([p.a]) + StringsSize([p.b]) + StringsSize([p.c])
  {
    hide Print, Quoted, Weight, B, KindName, OutcomeName, LevelName, MetricName, FloatValue, Int;
    var fs, p := DataFields(d), ToParts(d, fl);
    ObjectWeight(fs, fl);
    OneString(p.a);
    OneString(p.b);
    OneString(p.c);
    WeightSplit(fs, 0, fl);
    WeightSplit(fs, 1, fl);
    if |fs| > 2 {
      WeightSplit(fs, 2, fl);
    }
    hide StringsSize;
    assert fs[0..] == fs;
    if d.JsonLog? {
    } else {
      if p.a.Some? { QuotedLength(p.a.value, fl); }
      if p.b.Some? { QuotedLength(p.b.value, fl); }
      if p.c.Some? {
        QuotedLength(p.c.value, fl);
        WeightSplit(fs, 3, fl);
        WeightSplit(fs, 4, fl);
        WeightSplit(fs, 5, fl);
      }
    }
  }

  lemma RowSize(o: Observation, fl: Floats)
    ensures StringsSize(ToRow(o, fl).strings) <= |Text(o, fl)|
  {
    var p := ToParts(o.data, fl);
    var fs := EnvelopeFields(o, Object(IdentityFields(o.identity)), Object(DataFields(o.data)));
    SevenStrings(Some(o.registry), Some(o.identity.producer), Some(o.identity.generation), Some(o.resource), p.a, p.b, p.c);
    OneString(Some(o.registry));
    OneString(Some(o.identity.producer));
    OneString(Some(o.identity.generation));
    OneString(Some(o.resource));
    hide StringsSize, ToParts, B, IdentityFields, DataFields, Print, Weight, Quoted;
    QuotedLength(o.registry, fl);
    IdentityWeight(o.identity, fl);
    QuotedLength(o.resource, fl);
    DataWeight(o.data, fl);
    EnvelopeSplit(fs, fl);
    ObjectWeight(fs, fl);
  }

  lemma EnvelopeSplit(fs: seq<Field>, fl: Floats)
    requires |fs| == 6
    ensures Weight(fs, fl) >= |Print(fs[1].value, fl)| + |Print(fs[2].value, fl)| + |Print(fs[4].value, fl)| + |Print(fs[5].value, fl)|
  {
    hide Weight, Print, Quoted;
    WeightSplit(fs, 0, fl);
    WeightSplit(fs, 1, fl);
    WeightSplit(fs, 2, fl);
    WeightSplit(fs, 3, fl);
    WeightSplit(fs, 4, fl);
    WeightSplit(fs, 5, fl);
    assert fs[0..] == fs;
  }

  function RowSizes(records: seq<Observation>, fl: Floats): nat {
    if records == [] then 0 else StringsSize(ToRow(records[0], fl).strings) + RowSizes(records[1..], fl)
  }

  /** All the strings of a batch are no longer than its text. */
  lemma {:induction false} RowSizesPrinted(records: seq<Observation>, fl: Floats)
    ensures RowSizes(records, fl) <= |PrintItems(Documents(records), fl)|
  {
    hide Document, Print, ToRow, StringsSize;
    if records != [] {
      RowSize(records[0], fl);
      RowSizesPrinted(records[1..], fl);
      assert Documents(records)[1..] == Documents(records[1..]);
    }
  }

  lemma {:induction false} OptionalsLength(strings: seq<Option<Bytes>>)
    ensures |EncOptionals(strings)| == 4 * |strings| + StringsSize(strings)
  {
    if strings != [] {
      OptionalsLength(strings[1..]);
    }
  }

  lemma {:induction false} NumbersLength(numbers: seq<nat>)
    ensures |EncNumbers(numbers)| == 8 * |numbers|
  {
    if numbers != [] {
      NumbersLength(numbers[1..]);
    }
  }

  lemma RowLength(o: Observation, fl: Floats)
    ensures |EncRow(ToRow(o, fl))| == 84 + StringsSize(ToRow(o, fl).strings)
  {
    hide EncOptionals, EncNumbers, StringsSize, ToParts;
    OptionalsLength(ToRow(o, fl).strings);
    NumbersLength(ToRow(o, fl).numbers);
  }

  lemma {:induction false} RecordsLength(records: seq<Observation>, fl: Floats)
    ensures |EncRecords(records, fl)| == 84 * |records| + RowSizes(records, fl)
  {
    hide EncRow, ToRow, StringsSize;
    if records != [] {
      RowLength(records[0], fl);
      RecordsLength(records[1..], fl);
    }
  }

  /** A validated batch never reaches the frame limit. */
  lemma DirectFits(records: seq<Observation>, fl: Floats)
    requires Validated(records, fl)
    ensures |DirectFrame(records, fl)| <= MAX_FRAME_BYTES
  {
    hide RecordFits, BatchText, Documents, Print, EncRecords, RowSizes, Magic, ScanAll;
    RecordsLength(records, fl);
    RowSizesPrinted(records, fl);
    BatchLength(records, fl);
  }

  // ---------------------------------------------------------------- reading back

  lemma NumberBack(x: nat, tail: Bytes, expanded: nat)
    requires x <= U64_MAX
    ensures TakeInt(Cursor(Le(x, 8) + tail, expanded, 0), 8) == Some(Read(x, Cursor(tail, expanded, 0)))
  {
    Powers();
    TakeIntBack(x, 8, tail, expanded, 0);
  }

  lemma {:induction false} NumbersBack(numbers: seq<nat>, acc: seq<nat>, tail: Bytes, expanded: nat)
    requires forall k :: 0 <= k < |numbers| ==> numbers[k] <= U64_MAX
    ensures ReadNumbers(Cursor(EncNumbers(numbers) + tail, expanded, 0), |numbers|, acc)
         == Some(Read(acc + numbers, Cursor(tail, expanded, 0)))
  {
    hide TakeInt, Le;
    assert acc + [] == acc && [] + tail == tail;
    if numbers != [] {
      var more := EncNumbers(numbers[1..]) + tail;
      assert EncNumbers(numbers) + tail == Le(numbers[0], 8) + more;
      NumberBack(numbers[0], more, expanded);
      NumbersBack(numbers[1..], acc + [numbers[0]], tail, expanded);
      assert acc + [numbers[0]] + numbers[1..] == acc + numbers;
    }
  }

  lemma OptionalBack(s: Option<Bytes>, tail: Bytes, expanded: nat)
    requires s.Some? ==> Utf8(s.value) && |s.value| <= 65536
    requires expanded + StringsSize([s]) <= MAX_INPUT
    ensures ReadOptional(Cursor(EncOptional(s) + tail, expanded, 0)) == Some(Read(s, Cursor(tail, expanded + StringsSize([s]), 0)))
  {
    OneString(s);
    hide TakeInt, Le32, Utf8, Take, StringsSize;
    match s
    case Some(x) =>
      assert EncOptional(s) + tail == Le32(|x|) + (x + tail);
      Le32IntBack(|x|, x + tail, expanded, 0);
      TakeBack(x, tail, expanded + |x|, 0);
    case None =>
      Le32IntBack(NO_STRING, tail, expanded, 0);
  }

  ghost predicate StringsOk(strings: seq<Option<Bytes>>) {
    forall k :: 0 <= k < |strings| && strings[k].Some? ==> Utf8(strings[k].value) && |strings[k].value| <= 65536
  }

  lemma {:induction false} OptionalsBack(strings: seq<Option<Bytes>>, acc: seq<Option<Bytes>>, tail: Bytes, expanded: nat)
    requires StringsOk(strings) && expanded + StringsSize(strings) <= MAX_INPUT
    ensures ReadOptionals(Cursor(EncOptionals(strings) + tail, expanded, 0), |strings|, acc)
         == Some(Read(acc + strings, Cursor(tail, expanded + StringsSize(strings), 0)))
  {
    hide ReadOptional, EncOptional, Utf8;
    assert acc + [] == acc && [] + tail == tail;
    if strings != [] {
      var s := strings[0];
      var more := EncOptionals(strings[1..]) + tail;
      assert EncOptionals(strings) + tail == EncOptional(s) + more;
      OneString(s);
      OptionalBack(s, more, expanded);
      OptionalsBack(strings[1..], acc + [s], tail, expanded + StringsSize([s]));
      assert acc + [s] + strings[1..] == acc + strings;
    }
  }

  lemma RowReadBack(r: Row, tail: Bytes, expanded: nat)
    requires |r.strings| == 7 && |r.numbers| == 7 && StringsOk(r.strings) && expanded + StringsSize(r.strings) <= MAX_INPUT
    requires forall k :: 0 <= k < 7 ==> r.numbers[k] <= U64_MAX
    ensures ReadRow(Cursor(EncRow(r) + tail, expanded, 0)) == Some(Read(r, Cursor(tail, expanded + StringsSize(r.strings), 0)))
  {
    hide ReadNumbers, ReadOptionals, EncNumbers, EncOptionals, StringsSize, StringsOk;
    assert EncRow(r) + tail == EncNumbers(r.numbers) + (EncOptionals(r.strings) + tail);
    NumbersBack(r.numbers, [], EncOptionals(r.strings) + tail, expanded);
    OptionalsBack(r.strings, [], tail, expanded);
    assert [] + r.numbers == r.numbers && [] + r.strings == r.strings;
  }

  lemma {:induction false} MemberSize(strings: seq<Option<Bytes>>, k: nat)
    requires k < |strings| && strings[k].Some?
    ensures |strings[k].value| <= StringsSize(strings)
  {
    if k > 0 {
      MemberSize(strings[1..], k - 1);
    }
  }

  lemma RowNumbers(o: Observation, fl: Floats)
    requires Typed(o)
    ensures forall k :: 0 <= k < 7 ==> ToRow(o, fl).numbers[k] <= U64_MAX
  {
    hide Utf8, FieldsOk, Print;
  }

  lemma RowStringsOk(o: Observation, fl: Floats)
    requires Typed(o) && FloatsAscii(fl) && |Text(o, fl)| <= MAX_FRAME
    ensures StringsOk(ToRow(o, fl).strings)
  {
    RowSize(o, fl);
    var strings := ToRow(o, fl).strings;
    RowUtf8(o, fl);
    hide Utf8, ToRow, StringsSize, Text, Typed;
    forall k | 0 <= k < |strings| && strings[k].Some?
      ensures |strings[k].value| <= 65536
    {
      MemberSize(strings, k);
    }
  }

  lemma RowUtf8(o: Observation, fl: Floats)
    requires Typed(o) && FloatsAscii(fl)
    ensures forall k :: 0 <= k < 7 && ToRow(o, fl).strings[k].Some? ==> Utf8(ToRow(o, fl).strings[k].value)
  {
    if o.data.JsonLog? {
      EntriesOk(o.data.entries);
      PrintUtf8(Object(o.data.entries), fl);
    }
    hide Utf8, FieldsOk, Print, ValueOk, FloatsAscii;
  }

  lemma EntriesOk(entries: seq<Field>)
    requires FieldsOk(entries)
    ensures ValueOk(Object(entries))
  {
  }

  lemma {:induction false} ReadRecordsBack(records: seq<Observation>, lib: Library, acc: seq<Observation>, expanded: nat)
    requires forall i :: 0 <= i < |records| ==> Typed(records[i]) && RecordFits(records[i], lib.fl)
    requires FloatsOk(lib.fl) && FloatsAscii(lib.fl) && ParsesFields(lib)
    requires expanded + RowSizes(records, lib.fl) <= MAX_INPUT
    ensures ReadRecords(Cursor(EncRecords(records, lib.fl), expanded, 0), |records|, lib, acc)
         == Some(Read(acc + records, Cursor([], expanded + RowSizes(records, lib.fl), 0)))
    decreases |records|
  {
    hide Typed, FloatsOk, FloatsAscii, ParsesFields, ToRow, EncRow, ReadRow, FromRow, StringsSize, Valid, Text, ScanAll, StringsOk;
    assert acc + [] == acc;
    if records != [] {
      var o, more := records[0], records[1..];
      assert RecordFits(o, lib.fl);
      assert |Text(o, lib.fl)| <= MAX_FRAME;
      hide RecordFits;
      RowBack(o, lib);
      RowStringsOk(o, lib.fl);
      RowNumbers(o, lib.fl);
      RowShape(o, lib.fl);
      RowReadBack(ToRow(o, lib.fl), EncRecords(more, lib.fl), expanded);
      ReadRecordsBack(more, lib, acc + [o], expanded + StringsSize(ToRow(o, lib.fl).strings));
      assert acc + [o] + more == acc + records;
    }
  }

  lemma RowShape(o: Observation, fl: Floats)
    ensures |ToRow(o, fl).strings| == 7 && |ToRow(o, fl).numbers| == 7
  {
  }

  lemma ValidatedParts(records: seq<Observation>, fl: Floats)
    requires Validated(records, fl)
    ensures 0 < |records| <= 32 && RowSizes(records, fl) <= MAX_INPUT
    ensures forall i :: 0 <= i < |records| ==> RecordFits(records[i], fl)
  {
    hide RecordFits, BatchText, RowSizes, Documents, PrintItems, ScanAll;
    RowSizesPrinted(records, fl);
    BatchLength(records, fl);
    BatchBounded(records, fl);
  }

  lemma CountBack(records: seq<Observation>, lib: Library)
    requires 0 < |records| <= 32
    ensures ReadDirect(Cursor(EncDirect(records, lib.fl), 0, 0), lib)
         == ReadRecords(Cursor(EncRecords(records, lib.fl), 0, 0), |records|, lib, [])
  {
    hide ReadRecords, TakeInt, Le32, EncRecords;
    Le32IntBack(|records|, EncRecords(records, lib.fl), 0, 0);
  }

  lemma PayloadBack(records: seq<Observation>, lib: Library)
    requires Validated(records, lib.fl) && forall i :: 0 <= i < |records| ==> Typed(records[i])
    requires FloatsOk(lib.fl) && FloatsAscii(lib.fl) && ParsesFields(lib)
    ensures ReadDirect(Cursor(EncDirect(records, lib.fl), 0, 0), lib)
         == Some(Read(records, Cursor([], RowSizes(records, lib.fl), 0)))
  {
    hide *;
    ValidatedParts(records, lib.fl);
    CountBack(records, lib);
    ReadRecordsBack(records, lib, [], 0);
    assert [] + records == records;
  }

  /** Decoding a direct frame gives back the very records that were encoded. */
  lemma DirectRoundTrip(records: seq<Observation>, lib: Library)
    requires Validated(records, lib.fl) && forall i :: 0 <= i < |records| ==> Typed(records[i])
    requires FloatsOk(lib.fl) && FloatsAscii(lib.fl) && ParsesFields(lib)
    ensures DecodeDirectFrame(DirectFrame(records, lib.fl), lib) == Some(records)
  {
    hide Validated, Typed, FloatsOk, FloatsAscii, ParsesFields, ReadDirect, EncDirect, Magic, RowSizes;
    DirectFits(records, lib.fl);
    PayloadBack(records, lib);
    var head := Magic() + [3];
    var frame := DirectFrame(records, lib.fl);
    assert frame[..|head|] == head && frame[|head|..] == EncDirect(records, lib.fl);
  }

  lemma BatchBounded(records: seq<Observation>, fl: Floats)
    requires Validated(records, fl)
    ensures |BatchText(records, fl)| <= MAX_INPUT
  {
    hide BatchText, RecordFits;
  }

  // ---------------------------------------------------------------- prefixes

  lemma {:induction false} NumbersLocal(c: Cursor, n: nat, acc: seq<nat>, t: Bytes)
    ensures ReadNumbers(c, n, acc).Some? ==> ReadNumbers(More(c, t), n, acc) == Some(Longer(ReadNumbers(c, n, acc).value, t))
    decreases n
  {
    hide TakeInt;
    if n > 0 {
      TakeIntLocal(c, 8, t);
      if TakeInt(c, 8).Some? {
        var x := TakeInt(c, 8).value;
        NumbersLocal(x.after, n - 1, acc + [x.value], t);
      }
    }
  }

  lemma OptionalLocal(c: Cursor, t: Bytes)
    ensures ReadOptional(c).Some? ==> ReadOptional(More(c, t)) == Some(Longer(ReadOptional(c).value, t))
  {
    hide TakeInt, Take, Utf8;
    TakeIntLocal(c, 4, t);
    if TakeInt(c, 4).Some? {
      var n := TakeInt(c, 4).value;
      TakeLocal(n.after.(expanded := n.after.expanded + n.value), n.value, t);
    }
  }

  lemma {:induction false} OptionalsLocal(c: Cursor, n: nat, acc: seq<Option<Bytes>>, t: Bytes)
    ensures ReadOptionals(c, n, acc).Some? ==> ReadOptionals(More(c, t), n, acc) == Some(Longer(ReadOptionals(c, n, acc).value, t))
    decreases n
  {
    hide ReadOptional;
    if n > 0 {
      OptionalLocal(c, t);
      if ReadOptional(c).Some? {
        var s := ReadOptional(c).value;
        OptionalsLocal(s.after, n - 1, acc + [s.value], t);
      }
    }
  }

  lemma RowLocal(c: Cursor, t: Bytes)
    ensures ReadRow(c).Some? ==> ReadRow(More(c, t)) == Some(Longer(ReadRow(c).value, t))
  {
    hide ReadNumbers, ReadOptionals;
    NumbersLocal(c, 7, [], t);
    if ReadNumbers(c, 7, []).Some? {
      OptionalsLocal(ReadNumbers(c, 7, []).value.after, 7, [], t);
    }
  }

  lemma {:induction false} RecordsLocal(c: Cursor, n: nat, lib: Library, acc: seq<Observation>, t: Bytes)
    ensures ReadRecords(c, n, lib, acc).Some?
        ==> ReadRecords(More(c, t), n, lib, acc) == Some(Longer(ReadRecords(c, n, lib, acc).value, t))
    decreases n
  {
    hide ReadRow, FromRow;
    if n > 0 {
      RowLocal(c, t);
      if ReadRow(c).Some? {
        var row := ReadRow(c).value;
        if FromRow(row.value, lib).Some? {
          RecordsLocal(row.after, n - 1, lib, acc + [FromRow(row.value, lib).value], t);
        }
      }
    }
  }

  lemma DirectLocal(c: Cursor, lib: Library, t: Bytes)
    ensures ReadDirect(c, lib).Some? ==> ReadDirect(More(c, t), lib) == Some(Longer(ReadDirect(c, lib).value, t))
  {
    hide TakeInt, ReadRecords;
    TakeIntLocal(c, 4, t);
    if TakeInt(c, 4).Some? {
      var count := TakeInt(c, 4).value;
      RecordsLocal(count.after, count.value, lib, [], t);
    }
  }

  /** Of two accepted direct frames neither is a strict prefix of the other. */
  lemma DirectPrefixFree(frame: Bytes, extra: Bytes, lib: Library)
    requires DecodeDirectFrame(frame, lib).Some? && DecodeDirectFrame(frame + extra, lib).Some?
    ensures extra == []
  {
    hide ReadDirect, Validated, Magic;
    var head := Magic() + [3];
    var payload := frame[|head|..];
    assert (frame + extra)[|head|..] == payload + extra;
    DirectLocal(Cursor(payload, 0, 0), lib, extra);
    assert More(Cursor(payload, 0, 0), extra) == Cursor(payload + extra, 0, 0);
  }

  /** No encoded direct frame survives being cut short. */
  lemma DirectRefusesCut(records: seq<Observation>, lib: Library, n: nat)
    requires Validated(records, lib.fl) && forall i :: 0 <= i < |records| ==> Typed(records[i])
    requires FloatsOk(lib.fl) && FloatsAscii(lib.fl) && ParsesFields(lib) && n < |DirectFrame(records, lib.fl)|
    ensures DecodeDirectFrame(DirectFrame(records, lib.fl)[..n], lib) == None
  {
    hide *;
    DirectRoundTrip(records, lib);
    var frame := DirectFrame(records, lib.fl);
    assert frame == frame[..n] + frame[n..];
    if DecodeDirectFrame(frame[..n], lib).Some? {
      DirectPrefixFree(frame[..n], frame[n..], lib);
    }
  }

  /** Nor having bytes added. */
  lemma DirectRefusesMore(records: seq<Observation>, lib: Library, extra: Bytes)
    requires Validated(records, lib.fl) && forall i :: 0 <= i < |records| ==> Typed(records[i])
    requires FloatsOk(lib.fl) && FloatsAscii(lib.fl) && ParsesFields(lib) && extra != []
    ensures DecodeDirectFrame(DirectFrame(records, lib.fl) + extra, lib) == None
  {
    hide *;
    DirectRoundTrip(records, lib);
    if DecodeDirectFrame(DirectFrame(records, lib.fl) + extra, lib).Some? {
      DirectPrefixFree(DirectFrame(records, lib.fl), extra, lib);
    }
  }
}
