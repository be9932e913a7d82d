/** What the budgeted walk of fabric/src/observation.rs accepts, said without the walk. */
module Validation {
  import opened Common
  import opened Json
  import opened Observations
  import opened Codec

  /** Limits that concern one value at a time. */
  predicate Local(v: Value, depth: nat)
    decreases v, 0
  {
    depth <= MAX_DEPTH &&
    match v
    case String(t) => |t| <= 32768
    case Array(items) => |items| <= 64 && LocalItems(items, depth + 1)
    case Object(fields) => |fields| <= 64 && LocalFields(fields, depth + 1)
    case _ => true
  }

  predicate LocalItems(items: seq<Value>, depth: nat)
    decreases items, 0
  {
    items == [] || (Local(items[0], depth) && LocalItems(items[1..], depth))
  }

  predicate LocalFields(fields: seq<Field>, depth: nat)
    decreases fields, 0
  {
    fields == [] || (|fields[0].key| <= 256 && Local(fields[0].value, depth) && LocalFields(fields[1..], depth))
  }

  /** What is left after spending, if it can be afforded. */
  function Pay(local: bool, nodes: nat, bytes: nat, s: Spent): Option<Spent> {
    if local && nodes <= s.budget && s.bytes + bytes <= MAX_FRAME then Some(Spent(s.budget - nodes, s.bytes + bytes)) else None
  }

  /** The walk accepts exactly the values within the local limits whose values and bytes, all counted, can be paid for. */
  lemma {:induction false} WalkIsSum(v: Value, depth: nat, s: Spent)
    requires s.bytes <= MAX_FRAME
    ensures ValidJson(v, depth, s) == Pay(Local(v, depth), Nodes(v), Expands(v), s)
    decreases v, 0
  {
    if depth <= MAX_DEPTH && s.budget > 0 {
      var s' := s.(budget := s.budget - 1);
      match v
      case Array(items) =>
        if |items| <= 64 {
          ItemsWalk(items, depth + 1, s');
        }
      case Object(fields) =>
        if |fields| <= 64 {
          FieldsWalk(fields, depth + 1, s');
        }
      case _ =>
    }
  }

  lemma {:induction false} ItemsWalk(items: seq<Value>, depth: nat, s: Spent)
    requires s.bytes <= MAX_FRAME
    ensures ValidItems(items, depth, s) == Pay(LocalItems(items, depth), NodesItems(items), ExpandsItems(items), s)
    decreases items, 0
  {
    hide ValidJson, Local, Nodes, Expands;
    if items != [] {
      WalkIsSum(items[0], depth, s);
      if ValidJson(items[0], depth, s).Some? {
        ItemsWalk(items[1..], depth, ValidJson(items[0], depth, s).value);
      }
    }
  }

  lemma {:induction false} FieldsWalk(fields: seq<Field>, depth: nat, s: Spent)
    requires s.bytes <= MAX_FRAME
    ensures ValidFields(fields, depth, s) == Pay(LocalFields(fields, depth), NodesFields(fields), ExpandsFields(fields), s)
    decreases fields, 0
  {
    hide ValidJson, Local, Nodes, Expands;
    if fields != [] {
      var s' := s.(bytes := SaturatingAdd(s.bytes, |fields[0].key|));
      if s'.bytes <= MAX_FRAME {
        WalkIsSum(fields[0].value, depth, s');
        if ValidJson(fields[0].value, depth, s').Some? {
          FieldsWalk(fields[1..], depth, ValidJson(fields[0].value, depth, s').value);
        }
      }
    }
  }

  /** The top level: its keys are names, and are not counted. */
  predicate LocalEntries(fields: seq<Field>) {
    fields == [] || (TextOk(fields[0].key, 256) && Local(fields[0].value, 0) && LocalEntries(fields[1..]))
  }

  function EntryBytes(fields: seq<Field>): nat {
    if fields == [] then 0 else Expands(fields[0].value) + EntryBytes(fields[1..])
  }

  lemma {:induction false} EntriesWalk(fields: seq<Field>, s: Spent)
    requires s.bytes <= MAX_FRAME
    ensures ValidEntries(fields, s) == Pay(LocalEntries(fields), NodesFields(fields), EntryBytes(fields), s)
  {
    hide ValidJson, Local, Nodes, Expands, TextOk;
    if fields != [] && TextOk(fields[0].key, 256) {
      WalkIsSum(fields[0].value, 0, s);
      if ValidJson(fields[0].value, 0, s).Some? {
        EntriesWalk(fields[1..], ValidJson(fields[0].value, 0, s).value);
      }
    }
  }

  /** A JSON log is valid exactly when it has 1 to 64 named fields within the local limits, 4096 values and 65536 bytes. */
  lemma JsonLogValid(entries: seq<Field>)
    ensures ValidData(JsonLog(entries)) <==>
      0 < |entries| <= 64 && LocalEntries(entries) && NodesFields(entries) <= 4096 && EntryBytes(entries) <= MAX_FRAME
  {
    hide ValidEntries, LocalEntries;
    EntriesWalk(entries, Spent(4096, 0));
  }

  // ---------------------------------------------------------------- the other kinds

  /** One to max bytes, none of them zero. */
  ghost predicate Named(s: Bytes, max: nat) {
    1 <= |s| <= max && forall i :: 0 <= i < |s| ==> s[i] != 0
  }

  lemma NamedIs(s: Bytes, max: nat)
    ensures TextOk(s, max) <==> Named(s, max)
  {
  }

  function PowerOfTwo(n: nat): (r: real)
    ensures r > 0.0
  {
    if n == 0 then 1.0 else 2.0 * PowerOfTwo(n - 1)
  }

  /**
  The real number a finite IEEE 754 binary64 stands for: sign, eleven bits of exponent, fifty-two of fraction, with the
  hidden bit unless the exponent is zero.
  */
  function RealOf(bits: nat): real
    requires bits <= U64_MAX
  {
    var exponent, fraction := bits / 0x10_0000_0000_0000 % 2048, bits % 0x10_0000_0000_0000;
    var magnitude :=
      if exponent == 0 then fraction as real / PowerOfTwo(1074)
      else (0x10_0000_0000_0000 + fraction) as real * PowerOfTwo(exponent - 1) / PowerOfTwo(1074);
    if bits >= 0x8000_0000_0000_0000 then -magnitude else magnitude
  }

  /** Neither infinite nor not a number. */
  predicate IsFinite(bits: nat) {
    bits / 0x10_0000_0000_0000 % 2048 < 2047
  }

  lemma Quotients(bits: nat)
    requires bits <= U64_MAX
    ensures var exponent, fraction := bits / 0x10_0000_0000_0000 % 2048, bits % 0x10_0000_0000_0000;
      bits == (if bits >= 0x8000_0000_0000_0000 then 0x8000_0000_0000_0000 else 0) + exponent * 0x10_0000_0000_0000 + fraction
  {
    var q := bits / 0x10_0000_0000_0000;
    assert bits == q * 0x10_0000_0000_0000 + bits % 0x10_0000_0000_0000 && q < 4096;
    assert q % 2048 == if q >= 2048 then q - 2048 else q;
  }

  /** A number below zero has its sign bit set and something else as well. */
  lemma SignOf(bits: nat)
    requires bits <= U64_MAX
    ensures RealOf(bits) < 0.0 <==> bits > 0x8000_0000_0000_0000
    ensures RealOf(0x8000_0000_0000_0000) == 0.0
  {
    Quotients(bits);
    var exponent, fraction := bits / 0x10_0000_0000_0000 % 2048, bits % 0x10_0000_0000_0000;
    hide PowerOfTwo;
    if exponent == 0 {
      QuotientSign(fraction as real, PowerOfTwo(1074));
    } else {
      ProductSign((0x10_0000_0000_0000 + fraction) as real, PowerOfTwo(exponent - 1));
      QuotientSign((0x10_0000_0000_0000 + fraction) as real * PowerOfTwo(exponent - 1), PowerOfTwo(1074));
    }
    QuotientSign(0.0, PowerOfTwo(1074));
  }

  lemma ProductSign(a: real, b: real)
    requires a > 0.0 && b > 0.0
    ensures a * b > 0.0
  {
  }

  lemma QuotientSign(a: real, b: real)
    requires a >= 0.0 && b > 0.0
    ensures a / b >= 0.0 && (a / b == 0.0 <==> a == 0.0)
  {
  }

  /**
  A metric is valid exactly when its name and unit are names of up to 256 and 64 bytes and its value is finite and, for a
  counter, not below zero as a real number; negative zero is zero.
  */
  lemma MetricValid(name: Bytes, unit: Bytes, bits: nat, metricType: MetricType, reset: bool)
    requires bits <= U64_MAX
    ensures ValidData(Metric(name, unit, bits, metricType, reset)) <==>
      Named(name, 256) && Named(unit, 64) && IsFinite(bits) && (metricType == Counter ==> RealOf(bits) >= 0.0)
  {
    hide RealOf;
    NamedIs(name, 256);
    NamedIs(unit, 64);
    SignOf(bits);
    var q := bits / 0x10_0000_0000_0000;
    assert q % 2048 < 2048;
  }

  /** The kinds made of texts are valid exactly when each of them is a name within its own limit. */
  lemma TextsValid(a: Bytes, b: Bytes, duration: nat, status: Outcome, trace: Option<Bytes>, level: Level)
    ensures ValidData(ServiceRequest(a, b, duration, status, trace)) <==>
      Named(a, 256) && Named(b, 256) && (trace.Some? ==> Named(trace.value, 128))
    ensures ValidData(AgentRun(a, b, duration, status)) <==> Named(a, 256) && Named(b, 128)
    ensures ValidData(ToolExecution(a, b, duration, status)) <==> Named(a, 256) && Named(b, 128)
    ensures ValidData(Log(level, b)) <==> Named(b, 32768)
    ensures ValidData(Event(a, b)) <==> Named(a, 256) && Named(b, 32768)
    ensures ValidData(Gap(a, b)) <==> Named(a, 256) && Named(b, 4096)
  {
    hide Named;
    NamedIs(a, 256);
    NamedIs(b, 256);
    NamedIs(b, 128);
    NamedIs(b, 4096);
    NamedIs(b, 32768);
    if trace.Some? {
      NamedIs(trace.value, 128);
    }
  }

  /** And an observation exactly when its envelope is the second version's, its sequence is not zero, and its data is valid. */
  lemma EnvelopeValid(o: Observation)
    ensures Valid(o) <==>
      && o.version == 2 && o.registry == B("fabrico11y/2") && o.identity.sequence > 0
      && Named(o.identity.producer, 128) && Named(o.identity.generation, 128) && Named(o.resource, 256) && ValidData(o.data)
  {
    hide Named, ValidData;
    NamedIs(o.identity.producer, 128);
    NamedIs(o.identity.generation, 128);
    NamedIs(o.resource, 256);
  }
}
