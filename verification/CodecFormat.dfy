/** The bytes on the wire, value by value: the codes of this schema are stable and are never to change with the code around them. */
module CodecFormat {
  import opened Common
  import opened Json
  import opened Observations
  import opened Binary
  import opened Codec
  import opened CodecFrames
  import opened Direct

  // ---------------------------------------------------------------- integers

  /** Byte i holds the i-th digit to the base 256, the least significant first. */
  lemma {:induction false} LeDigits(n: nat, width: nat, i: nat)
    requires i < width
    ensures Power(i) > 0 && Le(n, width)[i] == n / Power(i) % 256
    decreases width
  {
    if i > 0 {
      LeDigits(n / 256, width - 1, i - 1);
      DivDiv(n, Power(i - 1));
    }
  }

  lemma DivDiv(n: nat, p: nat)
    requires p > 0
    ensures 256 * p > 0 && n / 256 / p == n / (256 * p)
  {
    var q, r := n / 256 / p, n / 256 % p;
    assert n == 256 * (p * q + r) + n % 256;
    assert n == (256 * p) * q + (256 * r + n % 256) by {
      assert 256 * (p * q + r) == (256 * p) * q + 256 * r;
    }
    QuotientIs(n, 256 * p, q, 256 * r + n % 256);
  }

  lemma QuotientIs(n: nat, d: nat, q: nat, r: nat)
    requires d > 0 && r < d && n == d * q + r
    ensures n / d == q
  {
    var k := q - n / d;
    assert n == d * (n / d) + n % d;
    Distribute(d, q, n / d);
    MulAtLeast(d, k);
    MulAtLeast(d, -k);
    assert d * -k == -(d * k);
  }

  lemma Distribute(d: int, a: int, b: int)
    ensures d * (a - b) == d * a - d * b
  {
  }

  lemma MulAtLeast(d: nat, k: int)
    ensures k >= 1 ==> d * k >= d
  {
    if k >= 1 {
      Distribute(d, k, k - 1);
    }
  }

  /** A negative integer is its two's complement. */
  lemma SignedBits(m: int)
    requires -0x8000_0000_0000_0000 <= m < 0
    ensures Unsigned(m) == 0x1_0000_0000_0000_0000 + m
  {
  }

  // ---------------------------------------------------------------- names

  function KeyNames(): seq<string> {
    ["version", "registry", "identity", "producer", "generation", "sequence", "timestamp_ns", "resource", "data", "kind",
     "service", "operation", "duration_ns", "status", "trace_id", "agent", "run_id", "tool", "level", "message", "fields",
     "name", "unit", "value", "metric_type", "reset", "source", "reason"]
  }

  function EnumNames(): seq<string> {
    ["service_request", "agent_run", "tool_execution", "log", "json_log", "event", "metric", "gap", "trace", "debug", "info",
     "warn", "error", "ok", "cancelled", "counter", "gauge"]
  }

  /** Keys are numbered from one in this order, zero being kept for names that are spelled out. */
  lemma KeyNumbers()
    ensures |Keys()| == |KeyNames()| == 28 && forall k :: 0 <= k < 28 ==> Keys()[k] == B(KeyNames()[k])
  {
  }

  lemma EnumNumbers()
    ensures |Enums()| == |EnumNames()| == 17 && forall k :: 0 <= k < 17 ==> Enums()[k] == B(EnumNames()[k])
  {
  }

  /** The first byte of every value, and the bytes of those that have no text. */
  lemma ValueCodes(key: Bytes, dict: seq<Bytes>, n: nat, m: int, bits: nat, items: seq<Value>, fields: seq<Field>)
    ensures Enc(Null, key, dict) == [0] && Enc(Bool(false), key, dict) == [1] && Enc(Bool(true), key, dict) == [2]
    ensures n <= 255 ==> Enc(Number(PosInt(n)), key, dict) == [11, n]
    ensures n > 255 ==> Enc(Number(PosInt(n)), key, dict) == [3] + Le(n, 8)
    ensures Enc(Number(NegInt(m)), key, dict) == [4] + Le(Unsigned(m), 8)
    ensures Enc(Number(Float(bits)), key, dict) == [5] + Le(bits, 8)
    ensures Enc(Array(items), key, dict)[..5] == [8] + Le32(|items|)
    ensures Enc(Object(fields), key, dict)[..5] == [9] + Le32(|fields|)
  {
    hide Le, Le32, Unsigned, EncItems, EncFields;
  }

  /** Text under a key: its number among the enumerated names, or in the dictionary, or spelled out. */
  lemma TextCodes(s: Bytes, key: Bytes, dict: seq<Bytes>)
    ensures var enumerated := key in {B("kind"), B("level"), B("status"), B("metric_type")};
      var e := Enc(String(s), key, dict);
      && (enumerated && s in Enums() ==> e[0] == 10 && |e| == 2 && e[1] < 17 && Enums()[e[1]] == s)
      && (!enumerated && Interned(key) && s in dict && |dict| <= 1024 ==>
            |e| == 3 && e[0] == 7 && UnLe(e[1..]) < |dict| && dict[UnLe(e[1..])] == s)
      && (!(enumerated && s in Enums()) && !(Interned(key) && s in dict) ==> e == [6] + Le32(|s|) + s)
  {
    hide Le32, Le, UnLe, Enums, B, Interned;
    var id := Index(dict, s);
    if id.Some? && id.value < 1024 {
      assert id.value % 0x1_0000 == id.value;
      Powers();
      LeBack(id.value, 2);
      assert ([7] + Le(id.value, 2))[1..] == Le(id.value, 2);
    }
  }

  /** A field: the number of its name and no more, or zero and the name. */
  lemma KeyCodes(key: Bytes)
    ensures var e := EncKey(key);
      if key in Keys() then |e| == 1 && 1 <= e[0] <= 28 && Keys()[e[0] - 1] == key else e == [0] + Le32(|key|) + key
  {
    hide Le32, Keys;
    assert |Keys()| == 28;
  }

  // ---------------------------------------------------------------- direct rows

  /** Seven 64-bit numbers, then seven strings, each of them by the kind of the record. */
  lemma RowLayout(o: Observation, fl: Floats)
    ensures var row := ToRow(o, fl);
      && row.numbers[..3] == [o.version, o.identity.sequence, o.timestamp]
      && row.strings[..4] == [Some(o.registry), Some(o.identity.producer), Some(o.identity.generation), Some(o.resource)]
      && |row.numbers| == |row.strings| == 7
      && row.numbers[3] == (match o.data
         case ServiceRequest(_, _, _, _, _) => 0
         case AgentRun(_, _, _, _) => 1
         case ToolExecution(_, _, _, _) => 2
         case Log(_, _) => 3
         case JsonLog(_) => 4
         case Event(_, _) => 5
         case Metric(_, _, _, _, _) => 6
         case Gap(_, _) => 7)
      && EncRow(row) == EncNumbers(row.numbers) + EncOptionals(row.strings) && |EncNumbers(row.numbers)| == 56
  {
    hide Print, Le;
    NumbersSize(ToRow(o, fl).numbers);
  }

  lemma {:induction false} NumbersSize(numbers: seq<nat>)
    ensures |EncNumbers(numbers)| == 8 * |numbers|
  {
    if numbers != [] {
      NumbersSize(numbers[1..]);
    }
  }

  /** What the other numbers and strings of a row are. */
  lemma RowParts(s: Bytes, t: Bytes, n: nat, status: Outcome, trace: Option<Bytes>, level: Level, bits: nat, metricType: MetricType, reset: bool, fl: Floats)
    ensures var code := match status case Succeeded => 0 case Errored => 1 case Cancelled => 2;
      && ToParts(ServiceRequest(s, t, n, status, trace), fl) == Parts(0, Some(s), Some(t), trace, n, code, 0)
      && ToParts(AgentRun(s, t, n, status), fl) == Parts(1, Some(s), Some(t), None, n, code, 0)
      && ToParts(ToolExecution(s, t, n, status), fl) == Parts(2, Some(s), Some(t), None, n, code, 0)
    ensures var code := match level case Trace => 0 case Debug => 1 case Info => 2 case Warn => 3 case Error => 4;
      ToParts(Log(level, t), fl) == Parts(3, Some(t), None, None, 0, code, 0)
    ensures ToParts(Event(s, t), fl) == Parts(5, Some(s), Some(t), None, 0, 0, 0) && ToParts(Gap(s, t), fl) == Parts(7, Some(s), Some(t), None, 0, 0, 0)
    ensures var flags := (match metricType case Counter => 0 case Gauge => 1) + (if reset then 2 else 0);
      ToParts(Metric(s, t, bits, metricType, reset), fl) == Parts(6, Some(s), Some(t), None, 0, flags, bits)
  {
  }

  /** The data a row's parts stand for, whatever is in the parts its kind does not use. */
  ghost predicate StandFor(p: Parts, d: Data, lib: Library) {
    match d
    case ServiceRequest(s, t, n, status, trace) => p.kind == 0 && p.a == Some(s) && p.b == Some(t) && p.c == trace && p.n == n && p.f == OutcomeNumber(status)
    case AgentRun(s, t, n, status) => p.kind == 1 && p.a == Some(s) && p.b == Some(t) && p.n == n && p.f == OutcomeNumber(status)
    case ToolExecution(s, t, n, status) => p.kind == 2 && p.a == Some(s) && p.b == Some(t) && p.n == n && p.f == OutcomeNumber(status)
    case Log(level, t) => p.kind == 3 && p.a == Some(t) && p.f == LevelNumber(level)
    case JsonLog(entries) => p.kind == 4 && p.a.Some? && Shallow(p.a.value, 65536, 16) && lib.parseFields(p.a.value) == Some(entries)
    case Event(s, t) => p.kind == 5 && p.a == Some(s) && p.b == Some(t)
    case Metric(s, t, bits, metricType, reset) =>
      p.kind == 6 && p.a == Some(s) && p.b == Some(t) && p.v == bits && p.f == (if metricType.Gauge? then 1 else 0) + (if reset then 2 else 0)
    case Gap(s, t) => p.kind == 7 && p.a == Some(s) && p.b == Some(t)
  }

  function OutcomeNumber(x: Outcome): nat {
    match x case Succeeded => 0 case Errored => 1 case Cancelled => 2
  }

  function LevelNumber(x: Level): nat {
    match x case Trace => 0 case Debug => 1 case Info => 2 case Warn => 3 case Error => 4
  }

  lemma PartsMean(p: Parts, d: Data, lib: Library)
    ensures FromParts(p, lib) == Some(d) <==> StandFor(p, d, lib)
  {
    hide Shallow;
    if p.kind == 6 && p.f < 4 {
      assert p.f == p.f % 2 + 2 * (p.f / 2 % 2);
    }
  }

  /** A row reads as an observation exactly if it holds its numbers and strings, and the observation is valid. */
  lemma RowMeans(r: Row, o: Observation, lib: Library)
    requires |r.strings| == |r.numbers| == 7
    ensures FromRow(r, lib) == Some(o) <==>
      && Valid(o) && r.numbers[..3] == [o.version, o.identity.sequence, o.timestamp]
      && r.strings[..4] == [Some(o.registry), Some(o.identity.producer), Some(o.identity.generation), Some(o.resource)]
      && StandFor(Parts(r.numbers[3], r.strings[4], r.strings[5], r.strings[6], r.numbers[4], r.numbers[5], r.numbers[6]), o.data, lib)
  {
    var p := Parts(r.numbers[3], r.strings[4], r.strings[5], r.strings[6], r.numbers[4], r.numbers[5], r.numbers[6]);
    PartsMean(p, o.data, lib);
    assert Valid(o) ==> o.version == 2;
    hide FromParts, StandFor, Valid;
  }

  // ---------------------------------------------------------------- frames

  /** Every string under an interned key that is not an enumerated one, in the order met: fields by key, records one by one. */
  function Occurring(v: Value, key: Bytes): seq<Bytes>
    decreases v, 0
  {
    match v
    case String(s) => if Interned(key) && key !in {B("kind"), B("level"), B("status"), B("metric_type")} then [s] else []
    case Array(items) => OccurringItems(items, key)
    case Object(fields) => OccurringFields(fields)
    case _ => []
  }

  function OccurringItems(items: seq<Value>, key: Bytes): seq<Bytes>
    decreases items, 0
  {
    if items == [] then [] else Occurring(items[0], key) + OccurringItems(items[1..], key)
  }

  function OccurringFields(fields: seq<Field>): seq<Bytes>
    decreases fields, 0
  {
    if fields == [] then [] else Occurring(fields[0].value, fields[0].key) + OccurringFields(fields[1..])
  }

  /** One after the other, each on first sight and if it fits. */
  function Admitted(dict: seq<Bytes>, strings: seq<Bytes>): seq<Bytes>
    decreases strings
  {
    if strings == [] then dict
    else
      var s := strings[0];
      Admitted(if s in dict || |dict| == 1024 || |Concat(dict)| + |s| > 65536 then dict else dict + [s], strings[1..])
  }

  lemma {:induction false} AdmittedJoin(dict: seq<Bytes>, a: seq<Bytes>, b: seq<Bytes>)
    ensures Admitted(dict, a + b) == Admitted(Admitted(dict, a), b)
    decreases a
  {
    hide Concat;
    if a == [] {
      assert a + b == b;
    } else {
      var s := a[0];
      assert (a + b)[1..] == a[1..] + b && (a + b)[0] == s;
      AdmittedJoin(if s in dict || |dict| == 1024 || |Concat(dict)| + |s| > 65536 then dict else dict + [s], a[1..], b);
    }
  }

  lemma {:induction false} GatheredIs(v: Value, key: Bytes, dict: seq<Bytes>)
    requires |dict| <= 1024
    ensures Gathered(v, key, dict) == Admitted(dict, Occurring(v, key)) && |Gathered(v, key, dict)| <= 1024
    decreases v, 0
  {
    hide B, Interned, Concat;
    match v
    case String(s) =>
      assert [s][1..] == [];
    case Array(items) => GatheredItemsAre(items, key, dict);
    case Object(fields) => GatheredFieldsAre(fields, dict);
    case _ =>
  }

  lemma {:induction false} GatheredItemsAre(items: seq<Value>, key: Bytes, dict: seq<Bytes>)
    requires |dict| <= 1024
    ensures GatheredItems(items, key, dict) == Admitted(dict, OccurringItems(items, key)) && |GatheredItems(items, key, dict)| <= 1024
    decreases items, 0
  {
    hide Gathered, Occurring, Concat, Admitted;
    if items != [] {
      GatheredIs(items[0], key, dict);
      GatheredItemsAre(items[1..], key, Gathered(items[0], key, dict));
      AdmittedJoin(dict, Occurring(items[0], key), OccurringItems(items[1..], key));
    } else {
      NoneAdmitted(dict);
    }
  }

  lemma NoneAdmitted(dict: seq<Bytes>)
    ensures Admitted(dict, []) == dict
  {
  }

  lemma {:induction false} GatheredFieldsAre(fields: seq<Field>, dict: seq<Bytes>)
    requires |dict| <= 1024
    ensures GatheredFields(fields, dict) == Admitted(dict, OccurringFields(fields)) && |GatheredFields(fields, dict)| <= 1024
    decreases fields, 0
  {
    hide Gathered, Occurring, Concat, Admitted;
    if fields != [] {
      var f := fields[0];
      GatheredIs(f.value, f.key, dict);
      GatheredFieldsAre(fields[1..], Gathered(f.value, f.key, dict));
      AdmittedJoin(dict, Occurring(f.value, f.key), OccurringFields(fields[1..]));
    } else {
      NoneAdmitted(dict);
    }
  }

  /** Columns one after the other, in each a value of every record, null where it has none. */
  function ColumnBytes(values: seq<Value>, key: Bytes, dict: seq<Bytes>): Bytes {
    Concat(seq(|values|, i requires 0 <= i < |values| =>
      Enc(if values[i].Object? && Get(values[i].fields, key).Some? then Get(values[i].fields, key).value else Null, key, dict)))
  }

  lemma {:induction false} ColumnIs(values: seq<Value>, key: Bytes, dict: seq<Bytes>)
    ensures EncColumn(values, key, dict) == ColumnBytes(values, key, dict)
  {
    hide Enc, Get;
    if values != [] {
      ColumnIs(values[1..], key, dict);
      var all := seq(|values|, i requires 0 <= i < |values| =>
        Enc(if values[i].Object? && Get(values[i].fields, key).Some? then Get(values[i].fields, key).value else Null, key, dict));
      assert all[1..] == seq(|values[1..]|, i requires 0 <= i < |values[1..]| =>
        Enc(if values[1..][i].Object? && Get(values[1..][i].fields, key).Some? then Get(values[1..][i].fields, key).value else Null, key, dict));
    }
  }

  /** The head of every frame: name and version of the experiment, a zero byte, the layout. */
  function Head(layout: byte): Bytes {
    B("F11Y-EXPERIMENT-1/fabrico11y-2") + [0, layout]
  }

  /** A row frame has no dictionary; one by columns has its strings in order of first sight, and the six columns of the envelope. */
  lemma FrameLayout(records: seq<Observation>, fl: Floats)
    ensures var values := Values(records);
      Frame(false, records) == Head(1) + [0, 0, 0, 0] + Le32(|records|) + EncItems(values, [], [])
    ensures var values := Values(records);
      var dict := Admitted([], OccurringItems(values, []));
      Frame(true, records) == Head(2) + Le32(|dict|) + EncStrings(dict) + Le32(|records|)
        + ColumnBytes(values, B("version"), dict) + ColumnBytes(values, B("registry"), dict) + ColumnBytes(values, B("identity"), dict)
        + ColumnBytes(values, B("timestamp_ns"), dict) + ColumnBytes(values, B("resource"), dict) + ColumnBytes(values, B("data"), dict)
    ensures DirectFrame(records, fl) == Head(3) + Le32(|records|) + EncRecords(records, fl)
  {
    hide B, Values, Enc, EncItems, Gathered, Occurring, Le32, EncColumn, ColumnBytes, EncRecords, Admitted, Get;
    assert Le32(0) == [0, 0, 0, 0] by {
      NoEntries();
    }
    var values := Values(records);
    GatheredItemsAre(values, [], []);
    var dict := Admitted([], OccurringItems(values, []));
    ColumnsAre(values, dict);
    assert forall b: byte :: B("F11Y-EXPERIMENT-1/fabrico11y-2") + [0] + [b] == Head(b);
  }

  lemma NoEntries()
    ensures Le32(0) == [0, 0, 0, 0]
  {
  }

  lemma ColumnsStep(values: seq<Value>, keys: seq<Bytes>, k: nat, dict: seq<Bytes>)
    requires k <= |keys|
    ensures EncColumns(values, keys[k..], dict) ==
      if k == |keys| then [] else EncColumn(values, keys[k], dict) + EncColumns(values, keys[k + 1..], dict)
  {
    if k < |keys| {
      assert keys[k..][1..] == keys[k + 1..];
    }
  }

  lemma InOrder(a: Bytes, b: Bytes, c: Bytes, d: Bytes, e: Bytes, f: Bytes)
    ensures a + (b + (c + (d + (e + (f + []))))) == a + b + c + d + e + f
  {
    assert e + (f + []) == e + f;
    assert d + (e + f) == d + e + f;
    assert c + (d + e + f) == c + d + e + f;
    assert b + (c + d + e + f) == b + c + d + e + f;
  }

  lemma ColumnsAre(values: seq<Value>, dict: seq<Bytes>)
    ensures EncColumns(values, Columns(), dict) ==
      ColumnBytes(values, B("version"), dict) + ColumnBytes(values, B("registry"), dict) + ColumnBytes(values, B("identity"), dict)
      + ColumnBytes(values, B("timestamp_ns"), dict) + ColumnBytes(values, B("resource"), dict) + ColumnBytes(values, B("data"), dict)
  {
    var keys := Columns();
    forall k | 0 <= k < 6
      ensures EncColumn(values, keys[k], dict) == ColumnBytes(values, keys[k], dict)
    {
      ColumnIs(values, keys[k], dict);
    }
    hide B, EncColumn, ColumnBytes, EncColumns;
    assert keys == keys[0..];
    forall k | 0 <= k < 6
      ensures EncColumns(values, keys[k..], dict) == ColumnBytes(values, keys[k], dict) + EncColumns(values, keys[k + 1..], dict)
    {
      ColumnsStep(values, keys, k, dict);
    }
    ColumnsStep(values, keys, 6, dict);
    InOrder(ColumnBytes(values, keys[0], dict), ColumnBytes(values, keys[1], dict), ColumnBytes(values, keys[2], dict),
            ColumnBytes(values, keys[3], dict), ColumnBytes(values, keys[4], dict), ColumnBytes(values, keys[5], dict));
  }

  /** The keys whose strings are shared. */
  lemma InternedNames(key: Bytes)
    ensures Interned(key) <==>
      || key == B("registry") || key == B("producer") || key == B("generation") || key == B("resource") || key == B("kind")
      || key == B("service") || key == B("operation") || key == B("status") || key == B("agent") || key == B("tool")
      || key == B("level") || key == B("name") || key == B("unit") || key == B("metric_type")
  {
    hide B;
  }
}
