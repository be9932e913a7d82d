/** The version 2 observation, its validation, and its serde mapping to JSON values: fabric/src/observation.rs. */
module Observations {
  import opened Common
  import opened Json

  const VERSION := 2
  const MAX_DEPTH := 16

  function Registry(): Bytes {
    B("fabrico11y/2")
  }

  datatype Identity = Identity(producer: Bytes, generation: Bytes, sequence: nat)

  datatype Outcome = Succeeded | Errored | Cancelled

  datatype Level = Trace | Debug | Info | Warn | Error

  datatype MetricType = Counter | Gauge

  datatype Data =
    | ServiceRequest(service: Bytes, operation: Bytes, duration: nat, status: Outcome, traceId: Option<Bytes>)
    | AgentRun(agent: Bytes, runId: Bytes, duration: nat, status: Outcome)
    | ToolExecution(tool: Bytes, runId: Bytes, duration: nat, status: Outcome)
    | Log(level: Level, message: Bytes)
    | JsonLog(entries: seq<Field>)
    | Event(name: Bytes, message: Bytes)
    | Metric(name: Bytes, unit: Bytes, bits: nat, metricType: MetricType, reset: bool)
    | Gap(source: Bytes, reason: Bytes)

  datatype Observation = Observation(
    version: nat, registry: Bytes, identity: Identity, timestamp: nat, resource: Bytes, data: Data)

  // ---------------------------------------------------------------- what the Rust types already ensure

  /** Well-formed UTF-8 (table 3-7 of the Unicode standard). */
  predicate Utf8(s: Bytes) {
    s == [] ||
    if s[0] < 0x80 then Utf8(s[1..])
    else if |s| >= 2 && 0xC2 <= s[0] <= 0xDF && Tail(s[1]) then Utf8(s[2..])
    else if |s| >= 3 && 0xE0 <= s[0] <= 0xEF && Tail(s[1]) && Tail(s[2])
         && (s[0] == 0xE0 ==> s[1] >= 0xA0) && (s[0] == 0xED ==> s[1] < 0xA0) then Utf8(s[3..])
    else
      |s| >= 4 && 0xF0 <= s[0] <= 0xF4 && Tail(s[1]) && Tail(s[2]) && Tail(s[3])
      && (s[0] == 0xF0 ==> s[1] >= 0x90) && (s[0] == 0xF4 ==> s[1] < 0x90) && Utf8(s[4..])
  }

  predicate Tail(b: byte) {
    0x80 <= b < 0xC0
  }

  ghost predicate ValueOk(v: Value)
    decreases v, 0
  {
    match v
    case Null => true
    case Bool(_) => true
    case Number(n) => NumOk(n)
    case String(s) => Utf8(s)
    case Array(items) => ItemsOk(items)
    case Object(fields) => FieldsOk(fields)
  }

  ghost predicate ItemsOk(items: seq<Value>)
    decreases items, 0
  {
    items == [] || (ValueOk(items[0]) && ItemsOk(items[1..]))
  }

  ghost predicate FieldsOk(fields: seq<Field>)
    decreases fields, 1
  {
    Sorted(fields) && EachOk(fields)
  }

  ghost predicate EachOk(fields: seq<Field>)
    decreases fields, 0
  {
    fields == [] || (Utf8(fields[0].key) && ValueOk(fields[0].value) && EachOk(fields[1..]))
  }

  ghost predicate DataOk(d: Data) {
    match d
    case ServiceRequest(service, operation, duration, _, traceId) =>
      Utf8(service) && Utf8(operation) && duration <= U64_MAX && (traceId.Some? ==> Utf8(traceId.value))
    case AgentRun(agent, runId, duration, _) => Utf8(agent) && Utf8(runId) && duration <= U64_MAX
    case ToolExecution(tool, runId, duration, _) => Utf8(tool) && Utf8(runId) && duration <= U64_MAX
    case Log(_, message) => Utf8(message)
    case JsonLog(entries) => FieldsOk(entries)
    case Event(name, message) => Utf8(name) && Utf8(message)
    case Metric(name, unit, bits, _, _) => Utf8(name) && Utf8(unit) && bits <= U64_MAX
    case Gap(source, reason) => Utf8(source) && Utf8(reason)
  }

  /** What every Rust `Observation` is by its types alone. */
  ghost predicate Typed(o: Observation) {
    && o.version <= 0xFFFF_FFFF && Utf8(o.registry)
    && Utf8(o.identity.producer) && Utf8(o.identity.generation) && o.identity.sequence <= U64_MAX
    && o.timestamp <= U64_MAX && Utf8(o.resource) && DataOk(o.data)
  }

  // ---------------------------------------------------------------- validation

  predicate TextOk(s: Bytes, max: nat) {
    s != [] && |s| <= max && 0 !in s
  }

  datatype Spent = Spent(budget: nat, bytes: nat)

  /** `valid_json`, with its budget and byte count threaded through. */
  function ValidJson(v: Value, depth: nat, s: Spent): Option<Spent>
    decreases v, 0
  {
    if depth > MAX_DEPTH || s.budget == 0 then None
    else
      var s' := s.(budget := s.budget - 1);
      match v
      case String(t) =>
        var bytes := SaturatingAdd(s'.bytes, |t|);
        if |t| <= 32768 && bytes <= MAX_FRAME then Some(s'.(bytes := bytes)) else None
      case Array(items) => if |items| <= 64 then ValidItems(items, depth + 1, s') else None
      case Object(fields) => if |fields| <= 64 then ValidFields(fields, depth + 1, s') else None
      case _ => Some(s')
  }

  function ValidItems(items: seq<Value>, depth: nat, s: Spent): Option<Spent>
    decreases items, 0
  {
    if items == [] then Some(s)
    else
      var s' :- ValidJson(items[0], depth, s);
      ValidItems(items[1..], depth, s')
  }

  function ValidFields(fields: seq<Field>, depth: nat, s: Spent): Option<Spent>
    decreases fields, 0
  {
    if fields == [] then Some(s)
    else
      var bytes := SaturatingAdd(s.bytes, |fields[0].key|);
      if |fields[0].key| > 256 || bytes > MAX_FRAME then None
      else
        var s' :- ValidJson(fields[0].value, depth, s.(bytes := bytes));
        ValidFields(fields[1..], depth, s')
  }

  /** The fields of a JSON log: a name check on each key, then `valid_json` from depth zero. */
  function ValidEntries(fields: seq<Field>, s: Spent): Option<Spent> {
    if fields == [] then Some(s)
    else if !TextOk(fields[0].key, 256) then None
    else
      var s' :- ValidJson(fields[0].value, 0, s);
      ValidEntries(fields[1..], s')
  }

  /** A finite float that is not below zero, negative zero included. */
  predicate Nonnegative(bits: nat) {
    bits <= 0x8000_0000_0000_0000
  }

  predicate ValidData(d: Data) {
    match d
    case ServiceRequest(service, operation, _, _, traceId) =>
      TextOk(service, 256) && TextOk(operation, 256) && (traceId.Some? ==> TextOk(traceId.value, 128))
    case AgentRun(agent, runId, _, _) => TextOk(agent, 256) && TextOk(runId, 128)
    case ToolExecution(tool, runId, _, _) => TextOk(tool, 256) && TextOk(runId, 128)
    case Log(_, message) => TextOk(message, 32768)
    case JsonLog(entries) => 0 < |entries| <= 64 && ValidEntries(entries, Spent(4096, 0)).Some?
    case Event(name, message) => TextOk(name, 256) && TextOk(message, 32768)
    case Metric(name, unit, bits, metricType, _) =>
      TextOk(name, 256) && TextOk(unit, 64) && Finite(bits) && (metricType == Counter ==> Nonnegative(bits))
    case Gap(source, reason) => TextOk(source, 256) && TextOk(reason, 4096)
  }

  predicate Valid(o: Observation) {
    && o.version == VERSION && o.registry == Registry() && o.identity.sequence != 0
    && TextOk(o.identity.producer, 128) && TextOk(o.identity.generation, 128) && TextOk(o.resource, 256)
    && ValidData(o.data)
  }

  // ---------------------------------------------------------------- serialization

  function OutcomeName(x: Outcome): Bytes {
    match x case Succeeded => B("ok") case Errored => B("error") case Cancelled => B("cancelled")
  }

  function LevelName(x: Level): Bytes {
    match x
    case Trace => B("trace")
    case Debug => B("debug")
    case Info => B("info")
    case Warn => B("warn")
    case Error => B("error")
  }

  function MetricName(x: MetricType): Bytes {
    match x case Counter => B("counter") case Gauge => B("gauge")
  }

  function Int(n: nat): Value {
    Number(PosInt(n))
  }

  /** A float as a JSON value; a non-finite one becomes null. */
  function FloatValue(bits: nat): Value {
    if Finite(bits) then Number(Float(bits)) else Null
  }

  function KindName(d: Data): Bytes {
    match d
    case ServiceRequest(_, _, _, _, _) => B("service_request")
    case AgentRun(_, _, _, _) => B("agent_run")
    case ToolExecution(_, _, _, _) => B("tool_execution")
    case Log(_, _) => B("log")
    case JsonLog(_) => B("json_log")
    case Event(_, _) => B("event")
    case Metric(_, _, _, _, _) => B("metric")
    case Gap(_, _) => B("gap")
  }

  /** The data in declaration order, the tag first. */
  function DataFields(d: Data): seq<Field> {
    [Field(B("kind"), String(KindName(d)))] +
    match d
    case ServiceRequest(service, operation, duration, status, traceId) =>
      [Field(B("service"), String(service)), Field(B("operation"), String(operation)), Field(B("duration_ns"), Int(duration)),
       Field(B("status"), String(OutcomeName(status))),
       Field(B("trace_id"), if traceId.Some? then String(traceId.value) else Null)]
    case AgentRun(agent, runId, duration, status) =>
      [Field(B("agent"), String(agent)), Field(B("run_id"), String(runId)), Field(B("duration_ns"), Int(duration)),
       Field(B("status"), String(OutcomeName(status)))]
    case ToolExecution(tool, runId, duration, status) =>
      [Field(B("tool"), String(tool)), Field(B("run_id"), String(runId)), Field(B("duration_ns"), Int(duration)),
       Field(B("status"), String(OutcomeName(status)))]
    case Log(level, message) => [Field(B("level"), String(LevelName(level))), Field(B("message"), String(message))]
    case JsonLog(entries) => [Field(B("fields"), Object(entries))]
    case Event(name, message) => [Field(B("name"), String(name)), Field(B("message"), String(message))]
    case Metric(name, unit, bits, metricType, reset) =>
      [Field(B("name"), String(name)), Field(B("unit"), String(unit)), Field(B("value"), FloatValue(bits)),
       Field(B("metric_type"), String(MetricName(metricType))), Field(B("reset"), Bool(reset))]
    case Gap(source, reason) => [Field(B("source"), String(source)), Field(B("reason"), String(reason))]
  }

  function IdentityFields(i: Identity): seq<Field> {
    [Field(B("producer"), String(i.producer)), Field(B("generation"), String(i.generation)), Field(B("sequence"), Int(i.sequence))]
  }

  function EnvelopeFields(o: Observation, identity: Value, data: Value): seq<Field> {
    [Field(B("version"), Int(o.version)), Field(B("registry"), String(o.registry)), Field(B("identity"), identity),
     Field(B("timestamp_ns"), Int(o.timestamp)), Field(B("resource"), String(o.resource)), Field(B("data"), data)]
  }

  /** What `serde_json::to_writer` prints: fields in declaration order. */
  function Document(o: Observation): Value {
    Object(EnvelopeFields(o, Object(IdentityFields(o.identity)), Object(DataFields(o.data))))
  }

  /** What `serde_json::to_value` builds: every field inserted into a sorted map. */
  function ToValue(o: Observation): Value {
    Object(Build(EnvelopeFields(o, Object(Build(IdentityFields(o.identity))), Object(Build(DataFields(o.data))))))
  }

  function Text(o: Observation, fl: Floats): Bytes {
    Print(Document(o), fl)
  }

  function Documents(records: seq<Observation>): seq<Value> {
    if records == [] then [] else [Document(records[0])] + Documents(records[1..])
  }

  /** The compact text of a whole batch. */
  function BatchText(records: seq<Observation>, fl: Floats): Bytes {
    Print(Array(Documents(records)), fl)
  }

  // ---------------------------------------------------------------- deserialization

  /** `serde_json::from_value`, for structs given as objects. Any type mismatch, missing or unknown field is None. */
  predicate Known(fields: seq<Field>, names: seq<Bytes>) {
    forall k :: 0 <= k < |fields| ==> fields[k].key in names
  }

  function AsString(v: Value): Option<Bytes> {
    if v.String? then Some(v.s) else None
  }

  function AsNat(v: Value, max: nat): Option<nat> {
    if v.Number? && v.num.PosInt? && v.num.n <= max then Some(v.num.n) else None
  }

  function AsFloat(v: Value, fl: Floats): Option<nat> {
    if !v.Number? then None
    else match v.num
      case Float(bits) => Some(bits)
      case PosInt(n) => Some(fl.nearest(n))
      case NegInt(m) => Some(fl.nearest(m))
  }

  /** A unit variant is its name, or an object holding its name with null. */
  function VariantName(v: Value): Option<Bytes> {
    if v.String? then Some(v.s)
    else if v.Object? && |v.fields| == 1 && v.fields[0].value == Null then Some(v.fields[0].key)
    else None
  }

  function AsOutcome(v: Value): Option<Outcome> {
    var name :- VariantName(v);
    if name == B("ok") then Some(Succeeded)
    else if name == B("error") then Some(Errored)
    else if name == B("cancelled") then Some(Cancelled)
    else None
  }

  function AsLevel(v: Value): Option<Level> {
    var name :- VariantName(v);
    if name == B("trace") then Some(Trace)
    else if name == B("debug") then Some(Debug)
    else if name == B("info") then Some(Info)
    else if name == B("warn") then Some(Warn)
    else if name == B("error") then Some(Error)
    else None
  }

  function AsMetricType(v: Value): Option<MetricType> {
    var name :- VariantName(v);
    if name == B("counter") then Some(Counter) else if name == B("gauge") then Some(Gauge) else None
  }

  function GetString(fields: seq<Field>, key: string): Option<Bytes> {
    var v :- Get(fields, B(key));
    AsString(v)
  }

  function GetNat(fields: seq<Field>, key: string, max: nat): Option<nat> {
    var v :- Get(fields, B(key));
    AsNat(v, max)
  }

  /** An optional string: absent and null both mean none. */
  function GetOptional(fields: seq<Field>, key: string): Option<Option<Bytes>> {
    match Get(fields, B(key))
    case None => Some(None)
    case Some(Null) => Some(None)
    case Some(String(s)) => Some(Some(s))
    case Some(_) => None
  }

  function FromIdentity(v: Value): Option<Identity> {
    if !v.Object? || !Known(v.fields, [B("producer"), B("generation"), B("sequence")]) then None
    else
      var producer :- GetString(v.fields, "producer");
      var generation :- GetString(v.fields, "generation");
      var sequence :- GetNat(v.fields, "sequence", U64_MAX);
      Some(Identity(producer, generation, sequence))
  }

  function FromRequest(f: seq<Field>): Option<Data> {
    if !Known(f, [B("kind"), B("service"), B("operation"), B("duration_ns"), B("status"), B("trace_id")]) then None
    else
      var service :- GetString(f, "service");
      var operation :- GetString(f, "operation");
      var duration :- GetNat(f, "duration_ns", U64_MAX);
      var s :- Get(f, B("status"));
      var status :- AsOutcome(s);
      var traceId :- GetOptional(f, "trace_id");
      Some(ServiceRequest(service, operation, duration, status, traceId))
  }

  function FromAgent(f: seq<Field>): Option<Data> {
    if !Known(f, [B("kind"), B("agent"), B("run_id"), B("duration_ns"), B("status")]) then None
    else
      var agent :- GetString(f, "agent");
      var runId :- GetString(f, "run_id");
      var duration :- GetNat(f, "duration_ns", U64_MAX);
      var s :- Get(f, B("status"));
      var status :- AsOutcome(s);
      Some(AgentRun(agent, runId, duration, status))
  }

  function FromTool(f: seq<Field>): Option<Data> {
    if !Known(f, [B("kind"), B("tool"), B("run_id"), B("duration_ns"), B("status")]) then None
    else
      var tool :- GetString(f, "tool");
      var runId :- GetString(f, "run_id");
      var duration :- GetNat(f, "duration_ns", U64_MAX);
      var s :- Get(f, B("status"));
      var status :- AsOutcome(s);
      Some(ToolExecution(tool, runId, duration, status))
  }

  function FromLog(f: seq<Field>): Option<Data> {
    if !Known(f, [B("kind"), B("level"), B("message")]) then None
    else
      var l :- Get(f, B("level"));
      var level :- AsLevel(l);
      var message :- GetString(f, "message");
      Some(Log(level, message))
  }

  function FromJsonLog(f: seq<Field>): Option<Data> {
    if !Known(f, [B("kind"), B("fields")]) then None
    else
      var entries :- Get(f, B("fields"));
      if entries.Object? then Some(JsonLog(entries.fields)) else None
  }

  function FromEvent(f: seq<Field>): Option<Data> {
    if !Known(f, [B("kind"), B("name"), B("message")]) then None
    else
      var name :- GetString(f, "name");
      var message :- GetString(f, "message");
      Some(Event(name, message))
  }

  function FromMetric(f: seq<Field>, fl: Floats): Option<Data> {
    if !Known(f, [B("kind"), B("name"), B("unit"), B("value"), B("metric_type"), B("reset")]) then None
    else
      var name :- GetString(f, "name");
      var unit :- GetString(f, "unit");
      var x :- Get(f, B("value"));
      var bits :- AsFloat(x, fl);
      var m :- Get(f, B("metric_type"));
      var metricType :- AsMetricType(m);
      var reset :- Get(f, B("reset"));
      if reset.Bool? then Some(Metric(name, unit, bits, metricType, reset.b)) else None
  }

  function FromGap(f: seq<Field>): Option<Data> {
    if !Known(f, [B("kind"), B("source"), B("reason")]) then None
    else
      var source :- GetString(f, "source");
      var reason :- GetString(f, "reason");
      Some(Gap(source, reason))
  }

  function FromData(v: Value, fl: Floats): Option<Data> {
    if !v.Object? then None
    else
      var kind :- GetString(v.fields, "kind");
      if kind == B("service_request") then FromRequest(v.fields)
      else if kind == B("agent_run") then FromAgent(v.fields)
      else if kind == B("tool_execution") then FromTool(v.fields)
      else if kind == B("log") then FromLog(v.fields)
      else if kind == B("json_log") then FromJsonLog(v.fields)
      else if kind == B("event") then FromEvent(v.fields)
      else if kind == B("metric") then FromMetric(v.fields, fl)
      else if kind == B("gap") then FromGap(v.fields)
      else None
  }

  function FromValue(v: Value, fl: Floats): Option<Observation> {
    if !v.Object?
       || !Known(v.fields, [B("version"), B("registry"), B("identity"), B("timestamp_ns"), B("resource"), B("data")]) then None
    else
      var version :- GetNat(v.fields, "version", 0xFFFF_FFFF);
      var registry :- GetString(v.fields, "registry");
      var i :- Get(v.fields, B("identity"));
      var identity :- FromIdentity(i);
      var timestamp :- GetNat(v.fields, "timestamp_ns", U64_MAX);
      var resource :- GetString(v.fields, "resource");
      var d :- Get(v.fields, B("data"));
      var data :- FromData(d, fl);
      Some(Observation(version, registry, identity, timestamp, resource, data))
  }

  // ---------------------------------------------------------------- the mapping is faithful

  lemma NamesDiffer()
    ensures B("registry") != B("identity") && B("registry") != B("resource") && B("identity") != B("resource")
    ensures B("producer") != B("sequence") && B("run_id") != B("status") && B("kind") != B("tool")
    ensures B("kind") != B("name") && B("kind") != B("unit") && B("name") != B("unit")
    ensures B("value") != B("reset") && B("source") != B("reason")
    ensures B("log") != B("gap")
    ensures B("trace") != B("debug") && B("trace") != B("error") && B("debug") != B("error") && B("info") != B("warn")
  {
    assert B("registry")[0] != B("identity")[0] && B("registry")[2] != B("resource")[2] && B("identity")[0] != B("resource")[0];
    assert B("producer")[0] != B("sequence")[0] && B("run_id")[0] != B("status")[0] && B("kind")[0] != B("tool")[0];
    assert B("kind")[0] != B("name")[0] && B("kind")[0] != B("unit")[0] && B("name")[0] != B("unit")[0];
    assert B("value")[0] != B("reset")[0] && B("source")[0] != B("reason")[0];
    assert B("log")[0] != B("gap")[0];
    assert B("service")[0] != B("trace_id")[0];
    assert B("trace")[0] != B("debug")[0] && B("trace")[0] != B("error")[0] && B("debug")[0] != B("error")[0];
    assert B("info")[0] != B("warn")[0];
  }

  ghost predicate Distinct(fields: seq<Field>) {
    forall i, j :: 0 <= i < j < |fields| ==> fields[i].key != fields[j].key
  }

  lemma {:induction false} BuildHolds(fields: seq<Field>)
    requires Distinct(fields)
    ensures Sorted(Build(fields))
    ensures forall f :: f in Build(fields) <==> f in fields
    ensures forall k :: 0 <= k < |fields| ==> Get(Build(fields), fields[k].key) == Some(fields[k].value)
  {
    if fields != [] {
      var init, last := fields[..|fields| - 1], fields[|fields| - 1];
      assert fields == init + [last];
      BuildHolds(init);
      GetMember(Build(init), last.key);
      InsertSorted(Build(init), last.key, last.value);
      forall k | 0 <= k < |fields|
        ensures Get(Build(fields), fields[k].key) == Some(fields[k].value)
      {
        GetInsert(Build(init), last.key, last.value, fields[k].key);
      }
    }
  }

  lemma DataDistinct(d: Data)
    ensures Distinct(DataFields(d))
  {
    NamesDiffer();
    hide B, KindName;
  }

  lemma IdentityRoundTrip(i: Identity)
    requires i.sequence <= U64_MAX
    ensures FromIdentity(Object(Build(IdentityFields(i)))) == Some(i)
  {
    NamesDiffer();
    hide B, Build, Get;
    var fs := IdentityFields(i);
    BuildHolds(fs);
    assert fs[0].key == B("producer") && fs[1].key == B("generation") && fs[2].key == B("sequence");
    KnownBuild(fs, [B("producer"), B("generation"), B("sequence")]);
  }

  lemma KnownBuild(fields: seq<Field>, names: seq<Bytes>)
    requires Distinct(fields) && forall f :: f in fields ==> f.key in names
    ensures Known(Build(fields), names)
  {
    BuildHolds(fields);
    forall k | 0 <= k < |Build(fields)|
      ensures Build(fields)[k].key in names
    {
      assert Build(fields)[k] in Build(fields);
    }
  }

  lemma OutcomeBack(x: Outcome)
    ensures AsOutcome(String(OutcomeName(x))) == Some(x)
  {
  }

  ghost predicate Holds(fields: seq<Field>, fs: seq<Field>) {
    forall k :: 0 <= k < |fs| ==> Get(fields, fs[k].key) == Some(fs[k].value)
  }

  lemma DataHeld(d: Data)
    ensures Holds(Build(DataFields(d)), DataFields(d))
    ensures GetString(Build(DataFields(d)), "kind") == Some(KindName(d))
  {
    DataDistinct(d);
    BuildHolds(DataFields(d));
    assert DataFields(d)[0] == Field(B("kind"), String(KindName(d)));
  }

  lemma OptionalBack(fields: seq<Field>, key: string, t: Option<Bytes>)
    requires Get(fields, B(key)) == Some(if t.Some? then String(t.value) else Null)
    ensures GetOptional(fields, key) == Some(t)
  {
  }

  lemma RequestHeld(d: Data)
    requires d.ServiceRequest?
    ensures var f := Build(DataFields(d));
      && Known(f, [B("kind"), B("service"), B("operation"), B("duration_ns"), B("status"), B("trace_id")])
      && GetString(f, "service") == Some(d.service) && GetString(f, "operation") == Some(d.operation)
      && Get(f, B("duration_ns")) == Some(Int(d.duration)) && Get(f, B("status")) == Some(String(OutcomeName(d.status)))
      && GetOptional(f, "trace_id") == Some(d.traceId)
  {
    DataDistinct(d);
    DataHeld(d);
    hide Get, B, Build, OutcomeName, GetOptional;
    var fs := DataFields(d);
    KnownBuild(fs, [B("kind"), B("service"), B("operation"), B("duration_ns"), B("status"), B("trace_id")]);
    assert fs[1].key == B("service") && fs[2].key == B("operation") && fs[3].key == B("duration_ns")
      && fs[4].key == B("status") && fs[5].key == B("trace_id");
    OptionalBack(Build(fs), "trace_id", d.traceId);
  }

  lemma RequestBack(d: Data)
    requires DataOk(d) && d.ServiceRequest?
    ensures FromRequest(Build(DataFields(d))) == Some(d)
  {
    RequestHeld(d);
    OutcomeBack(d.status);
    hide Get, B, Build, AsOutcome, OutcomeName, GetOptional, DataFields, Known;
  }

  lemma AgentBack(d: Data)
    requires DataOk(d) && d.AgentRun?
    ensures FromAgent(Build(DataFields(d))) == Some(d)
  {
    NamesDiffer();
    DataDistinct(d);
    DataHeld(d);
    hide Get, B, Build, AsOutcome, OutcomeName;
    var fs := DataFields(d);
    assert forall f :: f in fs ==> f.key in [B("kind"), B("agent"), B("run_id"), B("duration_ns"), B("status")];
    KnownBuild(fs, [B("kind"), B("agent"), B("run_id"), B("duration_ns"), B("status")]);
    assert fs[0].key == B("kind") && fs[1].key == B("agent") && fs[2].key == B("run_id") && fs[3].key == B("duration_ns") && fs[4].key == B("status");
    hide DataFields, Holds, Distinct, Known;
    OutcomeBack(d.status);
  }

  lemma ToolBack(d: Data)
    requires DataOk(d) && d.ToolExecution?
    ensures FromTool(Build(DataFields(d))) == Some(d)
  {
    NamesDiffer();
    DataDistinct(d);
    DataHeld(d);
    hide Get, B, Build, AsOutcome, OutcomeName;
    var fs := DataFields(d);
    assert forall f :: f in fs ==> f.key in [B("kind"), B("tool"), B("run_id"), B("duration_ns"), B("status")];
    KnownBuild(fs, [B("kind"), B("tool"), B("run_id"), B("duration_ns"), B("status")]);
    assert fs[0].key == B("kind") && fs[1].key == B("tool") && fs[2].key == B("run_id") && fs[3].key == B("duration_ns") && fs[4].key == B("status");
    hide DataFields, Holds, Distinct, Known;
    OutcomeBack(d.status);
  }

  lemma LogBack(d: Data)
    requires DataOk(d) && d.Log?
    ensures FromLog(Build(DataFields(d))) == Some(d)
  {
    NamesDiffer();
    DataDistinct(d);
    DataHeld(d);
    hide Get, B, Build;
    var fs := DataFields(d);
    assert forall f :: f in fs ==> f.key in [B("kind"), B("level"), B("message")];
    KnownBuild(fs, [B("kind"), B("level"), B("message")]);
    assert fs[0].key == B("kind") && fs[1].key == B("level") && fs[2].key == B("message");
  }

  lemma JsonLogBack(d: Data)
    requires DataOk(d) && d.JsonLog?
    ensures FromJsonLog(Build(DataFields(d))) == Some(d)
  {
    NamesDiffer();
    DataDistinct(d);
    DataHeld(d);
    hide Get, B, Build;
    var fs := DataFields(d);
    assert forall f :: f in fs ==> f.key in [B("kind"), B("fields")];
    KnownBuild(fs, [B("kind"), B("fields")]);
    assert fs[0].key == B("kind") && fs[1].key == B("fields");
  }

  lemma EventBack(d: Data)
    requires DataOk(d) && d.Event?
    ensures FromEvent(Build(DataFields(d))) == Some(d)
  {
    NamesDiffer();
    DataDistinct(d);
    DataHeld(d);
    hide Get, B, Build;
    var fs := DataFields(d);
    assert forall f :: f in fs ==> f.key in [B("kind"), B("name"), B("message")];
    KnownBuild(fs, [B("kind"), B("name"), B("message")]);
    assert fs[0].key == B("kind") && fs[1].key == B("name") && fs[2].key == B("message");
  }

  lemma MetricNameBack(x: MetricType)
    ensures AsMetricType(String(MetricName(x))) == Some(x)
  {
  }

  lemma MetricBack(d: Data, fl: Floats)
    requires DataOk(d) && d.Metric? && Finite(d.bits)
    ensures FromMetric(Build(DataFields(d)), fl) == Some(d)
  {
    NamesDiffer();
    DataDistinct(d);
    DataHeld(d);
    hide Get, B, Build, AsMetricType, MetricName;
    var fs := DataFields(d);
    assert forall f :: f in fs ==> f.key in [B("kind"), B("name"), B("unit"), B("value"), B("metric_type"), B("reset")];
    KnownBuild(fs, [B("kind"), B("name"), B("unit"), B("value"), B("metric_type"), B("reset")]);
    assert fs[0].key == B("kind") && fs[1].key == B("name") && fs[2].key == B("unit") && fs[3].key == B("value") && fs[4].key == B("metric_type") && fs[5].key == B("reset");
    MetricNameBack(d.metricType);
    hide DataFields, Holds, Distinct, Known;
  }

  lemma GapBack(d: Data)
    requires DataOk(d) && d.Gap?
    ensures FromGap(Build(DataFields(d))) == Some(d)
  {
    NamesDiffer();
    DataDistinct(d);
    DataHeld(d);
    hide Get, B, Build;
    var fs := DataFields(d);
    assert forall f :: f in fs ==> f.key in [B("kind"), B("source"), B("reason")];
    KnownBuild(fs, [B("kind"), B("source"), B("reason")]);
    assert fs[0].key == B("kind") && fs[1].key == B("source") && fs[2].key == B("reason");
  }

  lemma DataRoundTrip(d: Data, fl: Floats)
    requires DataOk(d) && (d.Metric? ==> Finite(d.bits))
    ensures FromData(Object(Build(DataFields(d))), fl) == Some(d)
  {
    NamesDiffer();
    DataHeld(d);
    hide Get, GetString, Build, B, DataOk, DataFields, Holds;
    hide FromRequest, FromAgent, FromTool, FromLog, FromJsonLog, FromEvent, FromMetric, FromGap;
    match d
    case ServiceRequest(_, _, _, _, _) => RequestBack(d);
    case AgentRun(_, _, _, _) => AgentBack(d);
    case ToolExecution(_, _, _, _) => ToolBack(d);
    case Log(_, _) => LogBack(d);
    case JsonLog(_) => JsonLogBack(d);
    case Event(_, _) => EventBack(d);
    case Metric(_, _, _, _, _) => MetricBack(d, fl);
    case Gap(_, _) => GapBack(d);
  }

  /** Any object with these six fields, in whatever order they were inserted, is that observation. */
  lemma FromEnvelope(o: Observation, fields: seq<Field>, fl: Floats)
    requires Typed(o) && (o.data.Metric? ==> Finite(o.data.bits))
    requires forall f :: f in fields ==> f.key in [B("version"), B("registry"), B("identity"), B("timestamp_ns"), B("resource"), B("data")]
    requires Get(fields, B("version")) == Some(Int(o.version)) && Get(fields, B("registry")) == Some(String(o.registry))
    requires Get(fields, B("identity")) == Some(Object(Build(IdentityFields(o.identity))))
    requires Get(fields, B("timestamp_ns")) == Some(Int(o.timestamp)) && Get(fields, B("resource")) == Some(String(o.resource))
    requires Get(fields, B("data")) == Some(Object(Build(DataFields(o.data))))
    ensures FromValue(Object(fields), fl) == Some(o)
  {
    hide Get, FromData, FromIdentity, B, Utf8, DataOk;
    IdentityRoundTrip(o.identity);
    DataRoundTrip(o.data, fl);
  }

  lemma ValueRoundTrip(o: Observation, fl: Floats)
    requires Typed(o) && (o.data.Metric? ==> Finite(o.data.bits))
    ensures FromValue(ToValue(o), fl) == Some(o)
  {
    NamesDiffer();
    hide B, Build, Get, FromValue;
    var fs := EnvelopeFields(o, Object(Build(IdentityFields(o.identity))), Object(Build(DataFields(o.data))));
    BuildHolds(fs);
    assert fs[0].key == B("version") && fs[1].key == B("registry") && fs[2].key == B("identity")
      && fs[3].key == B("timestamp_ns") && fs[4].key == B("resource") && fs[5].key == B("data");
    FromEnvelope(o, Build(fs), fl);
  }
}
