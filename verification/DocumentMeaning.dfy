/** What reads as an observation: exactly these objects, field by field, and no others. */
module DocumentMeaning {
  import opened Common
  import opened Json
  import opened Observations

  /** No field but these. */
  ghost predicate Only(f: seq<Field>, names: seq<Bytes>) {
    forall g :: g in f ==> g.key in names
  }

  /** The member of this name has this value. */
  ghost predicate Has(f: seq<Field>, key: string, v: Value) {
    Get(f, B(key)) == Some(v)
  }

  /** A number given as a nonnegative integer within its range. */
  ghost predicate HasNat(f: seq<Field>, key: string, n: nat, max: nat) {
    Get(f, B(key)) == Some(Number(PosInt(n))) && n <= max
  }

  /** A name, as a string or as the key of an object holding null. */
  ghost predicate HasName(f: seq<Field>, key: string, name: Bytes) {
    Get(f, B(key)) == Some(String(name)) || Get(f, B(key)) == Some(Object([Field(name, Null)]))
  }

  /** An optional string: none when absent or null. */
  ghost predicate HasOptional(f: seq<Field>, key: string, t: Option<Bytes>) {
    if t.Some? then Get(f, B(key)) == Some(String(t.value)) else Get(f, B(key)) == None || Get(f, B(key)) == Some(Null)
  }

  /** A float by its bits, or an integer nearest to which it is. */
  ghost predicate HasFloat(f: seq<Field>, key: string, bits: nat, fl: Floats) {
    var v := Get(f, B(key));
    && v.Some? && v.value.Number?
    && match v.value.num
       case Float(b) => b == bits
       case PosInt(n) => fl.nearest(n) == bits
       case NegInt(m) => fl.nearest(m) == bits
  }

  /** The members of a data object, by kind. */
  ghost predicate Describes(f: seq<Field>, d: Data, fl: Floats) {
    match d
    case ServiceRequest(service, operation, duration, status, traceId) =>
      && Only(f, [B("kind"), B("service"), B("operation"), B("duration_ns"), B("status"), B("trace_id")])
      && Has(f, "kind", String(B("service_request"))) && Has(f, "service", String(service)) && Has(f, "operation", String(operation))
      && HasNat(f, "duration_ns", duration, U64_MAX) && HasName(f, "status", OutcomeName(status)) && HasOptional(f, "trace_id", traceId)
    case AgentRun(agent, runId, duration, status) =>
      && Only(f, [B("kind"), B("agent"), B("run_id"), B("duration_ns"), B("status")])
      && Has(f, "kind", String(B("agent_run"))) && Has(f, "agent", String(agent)) && Has(f, "run_id", String(runId))
      && HasNat(f, "duration_ns", duration, U64_MAX) && HasName(f, "status", OutcomeName(status))
    case ToolExecution(tool, runId, duration, status) =>
      && Only(f, [B("kind"), B("tool"), B("run_id"), B("duration_ns"), B("status")])
      && Has(f, "kind", String(B("tool_execution"))) && Has(f, "tool", String(tool)) && Has(f, "run_id", String(runId))
      && HasNat(f, "duration_ns", duration, U64_MAX) && HasName(f, "status", OutcomeName(status))
    case Log(level, message) =>
      && Only(f, [B("kind"), B("level"), B("message")])
      && Has(f, "kind", String(B("log"))) && HasName(f, "level", LevelName(level)) && Has(f, "message", String(message))
    case JsonLog(entries) =>
      Only(f, [B("kind"), B("fields")]) && Has(f, "kind", String(B("json_log"))) && Has(f, "fields", Object(entries))
    case Event(name, message) =>
      && Only(f, [B("kind"), B("name"), B("message")])
      && Has(f, "kind", String(B("event"))) && Has(f, "name", String(name)) && Has(f, "message", String(message))
    case Metric(name, unit, bits, metricType, reset) =>
      && Only(f, [B("kind"), B("name"), B("unit"), B("value"), B("metric_type"), B("reset")])
      && Has(f, "kind", String(B("metric"))) && Has(f, "name", String(name)) && Has(f, "unit", String(unit))
      && HasFloat(f, "value", bits, fl) && HasName(f, "metric_type", MetricName(metricType)) && Has(f, "reset", Bool(reset))
    case Gap(source, reason) =>
      && Only(f, [B("kind"), B("source"), B("reason")])
      && Has(f, "kind", String(B("gap"))) && Has(f, "source", String(source)) && Has(f, "reason", String(reason))
  }

  ghost predicate Identifies(f: seq<Field>, i: Identity) {
    && Only(f, [B("producer"), B("generation"), B("sequence")])
    && Has(f, "producer", String(i.producer)) && Has(f, "generation", String(i.generation))
    && HasNat(f, "sequence", i.sequence, U64_MAX)
  }

  /** The envelope, its identity and its data. */
  ghost predicate Envelopes(f: seq<Field>, o: Observation, fl: Floats) {
    && Only(f, [B("version"), B("registry"), B("identity"), B("timestamp_ns"), B("resource"), B("data")])
    && HasNat(f, "version", o.version, 0xFFFF_FFFF) && Has(f, "registry", String(o.registry))
    && HasNat(f, "timestamp_ns", o.timestamp, U64_MAX) && Has(f, "resource", String(o.resource))
    && (exists i :: Has(f, "identity", Object(i)) && Identifies(i, o.identity))
    && (exists d :: Has(f, "data", Object(d)) && Describes(d, o.data, fl))
  }

  // ---------------------------------------------------------------- names

  lemma KnownMeans(f: seq<Field>, names: seq<Bytes>)
    ensures Known(f, names) <==> Only(f, names)
  {
    if Known(f, names) {
      forall g | g in f
        ensures g.key in names
      {
        var k :| 0 <= k < |f| && f[k] == g;
      }
    }
  }

  lemma VariantMeans(v: Value, name: Bytes)
    ensures VariantName(v) == Some(name) <==> v == String(name) || v == Object([Field(name, Null)])
  {
    if v.Object? && |v.fields| == 1 {
      assert v.fields == [Field(v.fields[0].key, v.fields[0].value)];
    }
  }

  lemma VariantsMean(v: Value)
    ensures forall x :: AsOutcome(v) == Some(x) <==> VariantName(v) == Some(OutcomeName(x))
    ensures forall x :: AsLevel(v) == Some(x) <==> VariantName(v) == Some(LevelName(x))
    ensures forall x :: AsMetricType(v) == Some(x) <==> VariantName(v) == Some(MetricName(x))
  {
    NamesDiffer();
    hide B, VariantName;
    assert |B("ok")| == 2 && |B("error")| == 5 && |B("cancelled")| == 9;
  }

  lemma NameMeans(f: seq<Field>, key: string)
    requires Get(f, B(key)).Some?
    ensures var v := Get(f, B(key)).value;
      && (forall x :: AsOutcome(v) == Some(x) <==> HasName(f, key, OutcomeName(x)))
      && (forall x :: AsLevel(v) == Some(x) <==> HasName(f, key, LevelName(x)))
      && (forall x :: AsMetricType(v) == Some(x) <==> HasName(f, key, MetricName(x)))
  {
    var v := Get(f, B(key)).value;
    VariantsMean(v);
    forall name
      ensures VariantName(v) == Some(name) <==> HasName(f, key, name)
    {
      VariantMeans(v, name);
    }
    hide VariantName, HasName, AsOutcome, AsLevel, AsMetricType, OutcomeName, LevelName, MetricName;
  }

  lemma OptionalMeans(f: seq<Field>, key: string, t: Option<Bytes>)
    ensures GetOptional(f, key) == Some(t) <==> HasOptional(f, key, t)
  {
    hide B, Get;
  }

  // ---------------------------------------------------------------- kind by kind

  lemma RequestMeans(f: seq<Field>, d: Data, fl: Floats)
    requires Has(f, "kind", String(B("service_request")))
    ensures FromRequest(f) == Some(d) <==> d.ServiceRequest? && Describes(f, d, fl)
  {
    KnownMeans(f, [B("kind"), B("service"), B("operation"), B("duration_ns"), B("status"), B("trace_id")]);
    if Get(f, B("status")).Some? {
      NameMeans(f, "status");
    }
    if d.ServiceRequest? {
      OptionalMeans(f, "trace_id", d.traceId);
    }
    hide B, Get, Known, Only, AsOutcome, OutcomeName, GetOptional, HasOptional;
  }

  lemma AgentMeans(f: seq<Field>, d: Data, fl: Floats)
    requires Has(f, "kind", String(B("agent_run")))
    ensures FromAgent(f) == Some(d) <==> d.AgentRun? && Describes(f, d, fl)
  {
    KnownMeans(f, [B("kind"), B("agent"), B("run_id"), B("duration_ns"), B("status")]);
    if Get(f, B("status")).Some? {
      NameMeans(f, "status");
    }
    hide B, Get, Known, Only, AsOutcome, OutcomeName;
  }

  lemma ToolMeans(f: seq<Field>, d: Data, fl: Floats)
    requires Has(f, "kind", String(B("tool_execution")))
    ensures FromTool(f) == Some(d) <==> d.ToolExecution? && Describes(f, d, fl)
  {
    KnownMeans(f, [B("kind"), B("tool"), B("run_id"), B("duration_ns"), B("status")]);
    if Get(f, B("status")).Some? {
      NameMeans(f, "status");
    }
    hide B, Get, Known, Only, AsOutcome, OutcomeName;
  }

  lemma LogMeans(f: seq<Field>, d: Data, fl: Floats)
    requires Has(f, "kind", String(B("log")))
    ensures FromLog(f) == Some(d) <==> d.Log? && Describes(f, d, fl)
  {
    KnownMeans(f, [B("kind"), B("level"), B("message")]);
    if Get(f, B("level")).Some? {
      NameMeans(f, "level");
    }
    hide B, Get, Known, Only, AsLevel, LevelName;
  }

  lemma MetricMeans(f: seq<Field>, d: Data, fl: Floats)
    requires Has(f, "kind", String(B("metric")))
    ensures FromMetric(f, fl) == Some(d) <==> d.Metric? && Describes(f, d, fl)
  {
    KnownMeans(f, [B("kind"), B("name"), B("unit"), B("value"), B("metric_type"), B("reset")]);
    if Get(f, B("metric_type")).Some? {
      NameMeans(f, "metric_type");
    }
    hide B, Get, Known, Only, AsMetricType, MetricName;
  }

  lemma PlainMeans(f: seq<Field>, d: Data, fl: Floats)
    ensures Has(f, "kind", String(B("json_log"))) ==> (FromJsonLog(f) == Some(d) <==> d.JsonLog? && Describes(f, d, fl))
    ensures Has(f, "kind", String(B("event"))) ==> (FromEvent(f) == Some(d) <==> d.Event? && Describes(f, d, fl))
    ensures Has(f, "kind", String(B("gap"))) ==> (FromGap(f) == Some(d) <==> d.Gap? && Describes(f, d, fl))
  {
    KnownMeans(f, [B("kind"), B("fields")]);
    KnownMeans(f, [B("kind"), B("name"), B("message")]);
    KnownMeans(f, [B("kind"), B("source"), B("reason")]);
    hide B, Get, Known, Only;
  }

  lemma KindsDiffer()
    ensures B("service_request") != B("tool_execution") && B("agent_run") != B("event") && B("log") != B("gap")
  {
    assert B("service_request")[0] != B("tool_execution")[0] && B("agent_run")[0] != B("event")[0] && B("log")[0] != B("gap")[0];
  }

  /** An object is the data of exactly the observation it describes. */
  lemma DataMeans(f: seq<Field>, d: Data, fl: Floats)
    ensures FromData(Object(f), fl) == Some(d) <==> Describes(f, d, fl)
  {
    KindsDiffer();
    PlainMeans(f, d, fl);
    var kind := Get(f, B("kind"));
    if kind == Some(String(B("service_request"))) {
      RequestMeans(f, d, fl);
    } else if kind == Some(String(B("agent_run"))) {
      AgentMeans(f, d, fl);
    } else if kind == Some(String(B("tool_execution"))) {
      ToolMeans(f, d, fl);
    } else if kind == Some(String(B("log"))) {
      LogMeans(f, d, fl);
    } else if kind == Some(String(B("metric"))) {
      MetricMeans(f, d, fl);
    }
    hide B, Get, FromRequest, FromAgent, FromTool, FromLog, FromJsonLog, FromEvent, FromMetric, FromGap;
    hide Only, HasNat, HasName, HasOptional, HasFloat, OutcomeName, LevelName, MetricName;
  }

  lemma IdentityMeans(f: seq<Field>, i: Identity)
    ensures FromIdentity(Object(f)) == Some(i) <==> Identifies(f, i)
  {
    KnownMeans(f, [B("producer"), B("generation"), B("sequence")]);
    hide B, Get, Known, Only;
  }

  /** A value reads as an observation exactly if it is an object of that observation's six members, their own members likewise. */
  lemma ReadsExactly(v: Value, o: Observation, fl: Floats)
    ensures FromValue(v, fl) == Some(o) <==> v.Object? && Envelopes(v.fields, o, fl)
  {
    if v.Object? {
      var f := v.fields;
      KnownMeans(f, [B("version"), B("registry"), B("identity"), B("timestamp_ns"), B("resource"), B("data")]);
      var i, d := Get(f, B("identity")), Get(f, B("data"));
      if i.Some? && i.value.Object? {
        IdentityMeans(i.value.fields, o.identity);
      }
      if d.Some? && d.value.Object? {
        DataMeans(d.value.fields, o.data, fl);
      }
      hide B, Get, Known, Only, Identifies, Describes, FromData;
    }
  }
}
