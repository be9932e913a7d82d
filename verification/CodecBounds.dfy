/** What encoding and decoding a value cost, against the length of its printed form. */
module CodecBounds {
  import opened Common
  import opened Json
  import opened Observations
  import opened Codec

  // ---------------------------------------------------------------- against the printed length

  lemma {:induction false} EscapedLength(s: Bytes)
    ensures |Escaped(s)| >= |s|
  {
    if s != [] {
      EscapedLength(s[1..]);
    }
  }

  lemma DecimalLength(n: nat)
    ensures n >= 256 ==> |Decimal(n)| >= 3
  {
    if n >= 256 {
      assert Decimal(n) == Decimal(n / 10) + [0x30 + n % 10];
      assert Decimal(n / 10) == Decimal(n / 100) + [0x30 + n / 10 % 10] by {
        assert n / 10 / 10 == n / 100;
      }
    }
  }

  /** Every value prints at least one byte, and every string and key byte prints. */
  lemma {:induction false} CostPrinted(v: Value, fl: Floats)
    requires FloatsOk(fl)
    ensures Nodes(v) <= |Print(v, fl)| && Expands(v) <= |Print(v, fl)|
    decreases v, 0
  {
    match v
    case Number(n) =>
    case String(s) => EscapedLength(s);
    case Array(items) => CostPrintedItems(items, fl);
    case Object(fields) => CostPrintedFields(fields, fl);
    case _ =>
  }

  lemma {:induction false} CostPrintedItems(items: seq<Value>, fl: Floats)
    requires FloatsOk(fl)
    ensures NodesItems(items) <= |PrintItems(items, fl)| && ExpandsItems(items) <= |PrintItems(items, fl)|
    decreases items, 0
  {
    if items != [] {
      CostPrinted(items[0], fl);
      CostPrintedItems(items[1..], fl);
    }
  }

  lemma {:induction false} CostPrintedFields(fields: seq<Field>, fl: Floats)
    requires FloatsOk(fl)
    ensures NodesFields(fields) <= |PrintFields(fields, fl)| && ExpandsFields(fields) <= |PrintFields(fields, fl)|
    decreases fields, 0
  {
    if fields != [] {
      EscapedLength(fields[0].key);
      CostPrinted(fields[0].value, fl);
      CostPrintedFields(fields[1..], fl);
    }
  }

  /** An encoding is at most three times as long as the printed value and one separator. */
  lemma {:induction false} EncPrinted(v: Value, key: Bytes, dict: seq<Bytes>, fl: Floats)
    requires FloatsOk(fl)
    ensures |Enc(v, key, dict)| <= 3 * (|Print(v, fl)| + 1)
    decreases v, 0
  {
    hide FloatsOk, Plain, Finite, Index, EnumKey, Interned, Enums;
    match v
    case Number(n) => NumPrinted(n, fl);
    case String(s) => EscapedLength(s);
    case Array(items) => EncPrintedItems(items, key, dict, fl);
    case Object(fields) => EncPrintedFields(fields, dict, fl);
    case _ =>
  }

  lemma NumPrinted(n: Num, fl: Floats)
    requires FloatsOk(fl)
    ensures |EncNum(n).body| + 1 <= 3 * (|PrintNum(n, fl)| + 1)
  {
    if n.PosInt? {
      DecimalLength(n.n);
    }
  }

  lemma {:induction false} EncPrintedItems(items: seq<Value>, key: Bytes, dict: seq<Bytes>, fl: Floats)
    requires FloatsOk(fl)
    ensures |EncItems(items, key, dict)| <= 3 * (|PrintItems(items, fl)| + if items == [] then 0 else 1)
    decreases items, 0
  {
    hide FloatsOk, Enc, Print;
    if items != [] {
      EncPrinted(items[0], key, dict, fl);
      EncPrintedItems(items[1..], key, dict, fl);
    }
  }

  lemma {:induction false} EncPrintedFields(fields: seq<Field>, dict: seq<Bytes>, fl: Floats)
    requires FloatsOk(fl)
    ensures |EncFields(fields, dict)| <= 3 * (|PrintFields(fields, fl)| + if fields == [] then 0 else 1)
    decreases fields, 0
  {
    hide FloatsOk, Enc, Print, KeyCode;
    if fields != [] {
      EscapedLength(fields[0].key);
      EncPrinted(fields[0].value, fields[0].key, dict, fl);
      EncPrintedFields(fields[1..], dict, fl);
    }
  }

  // ---------------------------------------------------------------- a sorted object prints as long as the declared one

  function FieldWeight(f: Field, fl: Floats): nat {
    |Quoted(f.key)| + |Print(f.value, fl)| + 2
  }

  function Weight(fields: seq<Field>, fl: Floats): nat {
    if fields == [] then 0 else FieldWeight(fields[0], fl) + Weight(fields[1..], fl)
  }

  lemma {:induction false} WeightPrinted(fields: seq<Field>, fl: Floats)
    ensures |PrintFields(fields, fl)| == Weight(fields, fl) - if fields == [] then 0 else 1
  {
    if fields != [] {
      WeightPrinted(fields[1..], fl);
    }
  }

  lemma {:induction false} WeightSnoc(fields: seq<Field>, f: Field, fl: Floats)
    ensures Weight(fields + [f], fl) == Weight(fields, fl) + FieldWeight(f, fl)
  {
    if fields == [] {
      assert fields + [f] == [f];
    } else {
      assert (fields + [f])[1..] == fields[1..] + [f];
      WeightSnoc(fields[1..], f, fl);
    }
  }

  lemma {:induction false} WeightInsert(fields: seq<Field>, key: Bytes, value: Value, fl: Floats)
    ensures Weight(Insert(fields, key, value), fl) == Weight(fields, fl) + FieldWeight(Field(key, value), fl)
  {
    hide FieldWeight, Less;
    var r := Insert(fields, key, value);
    if fields == [] || Less(key, fields[0].key) {
      assert r[1..] == fields;
    } else {
      assert r[1..] == Insert(fields[1..], key, value);
      WeightInsert(fields[1..], key, value, fl);
    }
  }

  lemma {:induction false} WeightBuild(fields: seq<Field>, fl: Floats)
    ensures Weight(Build(fields), fl) == Weight(fields, fl)
  {
    if fields != [] {
      var init, last := fields[..|fields| - 1], fields[|fields| - 1];
      assert fields == init + [last];
      WeightBuild(init, fl);
      WeightInsert(Build(init), last.key, last.value, fl);
      WeightSnoc(init, last, fl);
    }
  }

  lemma BuildPrinted(fields: seq<Field>, fl: Floats)
    ensures |Print(Object(Build(fields)), fl)| == |Print(Object(fields), fl)|
  {
    WeightBuild(fields, fl);
    WeightPrinted(fields, fl);
    WeightPrinted(Build(fields), fl);
  }

  lemma {:induction false} WeightSame(a: seq<Field>, b: seq<Field>, fl: Floats)
    requires |a| == |b| && forall k :: 0 <= k < |a| ==> FieldWeight(a[k], fl) == FieldWeight(b[k], fl)
    ensures Weight(a, fl) == Weight(b, fl)
  {
    if a != [] {
      WeightSame(a[1..], b[1..], fl);
    }
  }

  /** The tree the codec walks is as long in print as the observation's own text. */
  lemma ValuePrinted(o: Observation, fl: Floats)
    ensures |Print(ToValue(o), fl)| == |Text(o, fl)|
  {
    hide Build, Weight, IdentityFields, DataFields;
    var i, d := IdentityFields(o.identity), DataFields(o.data);
    BuildPrinted(i, fl);
    BuildPrinted(d, fl);
    var a := EnvelopeFields(o, Object(Build(i)), Object(Build(d)));
    var b := EnvelopeFields(o, Object(i), Object(d));
    hide Print, B;
    BuildPrinted(a, fl);
    WeightSame(a, b, fl);
    WeightPrinted(a, fl);
    WeightPrinted(b, fl);
    ObjectPrinted(a, fl);
    ObjectPrinted(b, fl);
  }

  lemma ObjectPrinted(fields: seq<Field>, fl: Floats)
    ensures |Print(Object(fields), fl)| == |PrintFields(fields, fl)| + 2
  {
  }

  // ---------------------------------------------------------------- nesting and shape

  lemma {:induction false} NestingMember(fields: seq<Field>, n: nat)
    ensures NestingFields(fields) <= n <==> forall f :: f in fields ==> Nesting(f.value) <= n
  {
    if fields != [] {
      NestingMember(fields[1..], n);
      assert forall f :: f in fields <==> f == fields[0] || f in fields[1..];
    }
  }

  lemma BuildNesting(fields: seq<Field>)
    requires Distinct(fields)
    ensures NestingFields(Build(fields)) == NestingFields(fields)
  {
    hide Build, Get, NestingFields;
    BuildHolds(fields);
    var a, b := NestingFields(fields), NestingFields(Build(fields));
    NestingMember(fields, a);
    NestingMember(Build(fields), a);
    NestingMember(fields, b);
    NestingMember(Build(fields), b);
  }

  lemma {:induction false} NestingSame(a: seq<Field>, b: seq<Field>)
    requires |a| == |b| && forall k :: 0 <= k < |a| ==> Nesting(a[k].value) == Nesting(b[k].value)
    ensures NestingFields(a) == NestingFields(b)
  {
    if a != [] {
      NestingSame(a[1..], b[1..]);
    }
  }

  lemma EnvelopeDistinct(o: Observation, identity: Value, data: Value)
    ensures Distinct(EnvelopeFields(o, identity, data))
  {
    NamesDiffer();
    hide B;
  }

  lemma IdentityDistinct(i: Identity)
    ensures Distinct(IdentityFields(i))
  {
    NamesDiffer();
    hide B;
  }

  lemma ValueNesting(o: Observation)
    ensures Nesting(ToValue(o)) == Nesting(Document(o))
  {
    hide B, Build, DataFields, IdentityFields, EnvelopeFields, NestingFields;
    var i, d := IdentityFields(o.identity), DataFields(o.data);
    IdentityDistinct(o.identity);
    DataDistinct(o.data);
    BuildNesting(i);
    BuildNesting(d);
    var a := EnvelopeFields(o, Object(Build(i)), Object(Build(d)));
    var b := EnvelopeFields(o, Object(i), Object(d));
    EnvelopeDistinct(o, Object(Build(i)), Object(Build(d)));
    BuildNesting(a);
    assert Nesting(Object(Build(i))) == Nesting(Object(i)) && Nesting(Object(Build(d))) == Nesting(Object(d));
    hide Nesting;
    EnvelopeNesting(o, Object(Build(i)), Object(Build(d)), Object(i), Object(d));
    ObjectNesting(Build(a));
    ObjectNesting(b);
  }

  lemma EnvelopeNesting(o: Observation, i: Value, d: Value, i': Value, d': Value)
    requires Nesting(i) == Nesting(i') && Nesting(d) == Nesting(d')
    ensures NestingFields(EnvelopeFields(o, i, d)) == NestingFields(EnvelopeFields(o, i', d'))
  {
    hide B;
    NestingSame(EnvelopeFields(o, i, d), EnvelopeFields(o, i', d'));
  }

  lemma ObjectNesting(fields: seq<Field>)
    ensures Nesting(Object(fields)) == 1 + NestingFields(fields)
  {
  }

  ghost predicate FieldFits(f: Field) {
    (Utf8(f.key) || f.key in Keys()) && Fits(f.value, f.key)
  }

  lemma {:induction false} FitsMember(fields: seq<Field>)
    ensures FitsFields(fields) <==> forall f :: f in fields ==> FieldFits(f)
  {
    hide Utf8, Keys;
    if fields != [] {
      FitsMember(fields[1..]);
      assert fields[0] in fields && forall f :: f in fields <==> f == fields[0] || f in fields[1..];
      assert FitsFields(fields) <==> FieldFits(fields[0]) && FitsFields(fields[1..]);
    }
  }

  /** What validation lets into a JSON log is within the reader's counts. */
  lemma {:induction false} ValidFits(v: Value, key: Bytes, depth: nat, s: Spent)
    requires ValueOk(v) && ValidJson(v, depth, s).Some?
    ensures Fits(v, key)
    decreases v, 0
  {
    match v
    case Array(items) => ValidFitsItems(items, key, depth + 1, s.(budget := s.budget - 1));
    case Object(fields) => ValidFitsFields(fields, depth + 1, s.(budget := s.budget - 1));
    case _ =>
  }

  lemma {:induction false} ValidFitsItems(items: seq<Value>, key: Bytes, depth: nat, s: Spent)
    requires ItemsOk(items) && ValidItems(items, depth, s).Some?
    ensures FitsItems(items, key)
    decreases items, 0
  {
    if items != [] {
      ValidFits(items[0], key, depth, s);
      ValidFitsItems(items[1..], key, depth, ValidJson(items[0], depth, s).value);
    }
  }

  lemma {:induction false} ValidFitsFields(fields: seq<Field>, depth: nat, s: Spent)
    requires EachOk(fields) && ValidFields(fields, depth, s).Some?
    ensures FitsFields(fields)
    decreases fields, 0
  {
    if fields != [] {
      var s' := s.(bytes := SaturatingAdd(s.bytes, |fields[0].key|));
      ValidFits(fields[0].value, fields[0].key, depth, s');
      ValidFitsFields(fields[1..], depth, ValidJson(fields[0].value, depth, s').value);
    }
  }

  lemma {:induction false} ValidFitsEntries(fields: seq<Field>, s: Spent)
    requires EachOk(fields) && ValidEntries(fields, s).Some?
    ensures FitsFields(fields)
  {
    if fields != [] {
      ValidFits(fields[0].value, fields[0].key, 0, s);
      ValidFitsEntries(fields[1..], ValidJson(fields[0].value, 0, s).value);
    }
  }

  // ---------------------------------------------------------------- observations fit

  lemma NamedColumns()
    ensures forall k :: k in Columns() ==> k in Keys()
    ensures B("producer") in Keys() && B("generation") in Keys() && B("sequence") in Keys() && B("kind") in Keys()
  {
    hide B;
  }

  lemma NamedData()
    ensures B("kind") in Keys() && B("service") in Keys() && B("operation") in Keys() && B("duration_ns") in Keys()
    ensures B("status") in Keys() && B("trace_id") in Keys() && B("agent") in Keys() && B("run_id") in Keys()
    ensures B("tool") in Keys() && B("level") in Keys() && B("message") in Keys() && B("fields") in Keys()
  {
    hide B;
  }

  lemma NamedMore()
    ensures B("name") in Keys() && B("unit") in Keys() && B("value") in Keys() && B("metric_type") in Keys()
    ensures B("reset") in Keys() && B("source") in Keys() && B("reason") in Keys()
  {
    hide B;
  }

  lemma NamedEnums(d: Data)
    ensures KindName(d) in Enums()
    ensures (d.ServiceRequest? || d.AgentRun? || d.ToolExecution?) ==> OutcomeName(d.status) in Enums()
    ensures d.Log? ==> LevelName(d.level) in Enums()
    ensures d.Metric? ==> MetricName(d.metricType) in Enums()
    ensures EnumKey(B("kind")) && EnumKey(B("status")) && EnumKey(B("level")) && EnumKey(B("metric_type"))
  {
    hide B;
  }

  lemma DataFits(d: Data)
    requires DataOk(d) && ValidData(d)
    ensures forall f :: f in DataFields(d) ==> FieldFits(f)
  {
    NamedData();
    NamedMore();
    NamedEnums(d);
    hide B, Keys, Enums, EnumKey, Columns, KindName, OutcomeName, LevelName, MetricName, Utf8, TextOk, Finite;
    if d.JsonLog? {
      ValidFitsEntries(d.entries, Spent(4096, 0));
    }
  }

  /** A valid observation's tree has the shape the reader takes. */
  lemma ValueFits(o: Observation, key: Bytes)
    requires Typed(o) && Valid(o)
    ensures Fits(ToValue(o), key)
  {
    hide Utf8, Keys, Enums, EnumKey, TextOk, DataOk, ValidData, Columns, Build, DataFields, Get, Registry;
    NamedColumns();
    hide B;
    var i, d := IdentityFields(o.identity), DataFields(o.data);
    IdentityDistinct(o.identity);
    BuildHolds(i);
    FitsMember(Build(i));
    DataDistinct(o.data);
    BuildHolds(d);
    DataFits(o.data);
    FitsMember(Build(d));
    ObjectFits(Build(i), B("identity"));
    DataSmall(o.data);
    ObjectFits(Build(d), B("data"));
    EnvelopeFits(o, Object(Build(i)), Object(Build(d)), key);
  }

  lemma DataSmall(d: Data)
    ensures |DataFields(d)| <= 6
  {
  }

  lemma ObjectFits(fields: seq<Field>, key: Bytes)
    requires |fields| <= 64 && Sorted(fields) && FitsFields(fields)
    ensures Fits(Object(fields), key)
  {
  }

  lemma EnvelopeFits(o: Observation, i: Value, d: Value, key: Bytes)
    requires Typed(o) && Fits(i, B("identity")) && Fits(d, B("data"))
    ensures Fits(Object(Build(EnvelopeFields(o, i, d))), key)
  {
    NamedColumns();
    ColumnNames();
    hide B, Keys, Enums, EnumKey, Utf8, Build, Columns, DataOk;
    var fs := EnvelopeFields(o, i, d);
    EnvelopeDistinct(o, i, d);
    BuildHolds(fs);
    FitsMember(Build(fs));
    ObjectFits(Build(fs), key);
  }

  lemma ColumnNames()
    ensures B("version") in Columns() && B("registry") in Columns() && B("identity") in Columns()
    ensures B("timestamp_ns") in Columns() && B("resource") in Columns() && B("data") in Columns()
  {
  }
}
