/** The direct codec and its streaming validator: xtask/src/representation/direct.rs. */
module Direct {
  import opened Common
  import opened Json
  import opened Observations
  import opened Binary
  import opened Codec
  import opened CodecFrames

  const NO_STRING := 0xFFFF_FFFF

  /** Seven optional strings and seven 64-bit numbers. */
  datatype Row = Row(strings: seq<Option<Bytes>>, numbers: seq<nat>)

  function OutcomeCode(x: Outcome): nat {
    match x case Succeeded => 0 case Errored => 1 case Cancelled => 2
  }

  function LevelCode(x: Level): nat {
    match x case Trace => 0 case Debug => 1 case Info => 2 case Warn => 3 case Error => 4
  }

  /** What the kind of record decides: strings 4 to 6 and numbers 3 to 6. */
  datatype Parts = Parts(kind: nat, a: Option<Bytes>, b: Option<Bytes>, c: Option<Bytes>, n: nat, f: nat, v: nat)

  function ToParts(d: Data, fl: Floats): Parts {
    match d
    case ServiceRequest(service, operation, duration, status, traceId) =>
      Parts(0, Some(service), Some(operation), traceId, duration, OutcomeCode(status), 0)
    case AgentRun(agent, runId, duration, status) => Parts(1, Some(agent), Some(runId), None, duration, OutcomeCode(status), 0)
    case ToolExecution(tool, runId, duration, status) => Parts(2, Some(tool), Some(runId), None, duration, OutcomeCode(status), 0)
    case Log(level, message) => Parts(3, Some(message), None, None, 0, LevelCode(level), 0)
    case JsonLog(entries) => Parts(4, Some(Print(Object(entries), fl)), None, None, 0, 0, 0)
    case Event(name, message) => Parts(5, Some(name), Some(message), None, 0, 0, 0)
    case Metric(name, unit, bits, metricType, reset) =>
      Parts(6, Some(name), Some(unit), None, 0, (if metricType == Gauge then 1 else 0) + (if reset then 2 else 0), bits)
    case Gap(source, reason) => Parts(7, Some(source), Some(reason), None, 0, 0, 0)
  }

  function ToRow(o: Observation, fl: Floats): Row {
    var p := ToParts(o.data, fl);
    Row([Some(o.registry), Some(o.identity.producer), Some(o.identity.generation), Some(o.resource), p.a, p.b, p.c],
        [o.version, o.identity.sequence, o.timestamp, p.kind, p.n, p.f, p.v])
  }

  function FromStatus(code: nat): Option<Outcome> {
    if code == 0 then Some(Succeeded) else if code == 1 then Some(Errored) else if code == 2 then Some(Cancelled) else None
  }

  function FromLevel(code: nat): Option<Level> {
    if code == 0 then Some(Trace)
    else if code == 1 then Some(Debug)
    else if code == 2 then Some(Info)
    else if code == 3 then Some(Warn)
    else if code == 4 then Some(Error)
    else None
  }

  function FromParts(p: Parts, lib: Library): Option<Data> {
    match p.kind
    case 0 => var a :- p.a; var b :- p.b; var status :- FromStatus(p.f); Some(ServiceRequest(a, b, p.n, status, p.c))
    case 1 => var a :- p.a; var b :- p.b; var status :- FromStatus(p.f); Some(AgentRun(a, b, p.n, status))
    case 2 => var a :- p.a; var b :- p.b; var status :- FromStatus(p.f); Some(ToolExecution(a, b, p.n, status))
    case 3 => var a :- p.a; var level :- FromLevel(p.f); Some(Log(level, a))
    case 4 =>
      var raw :- p.a;
      if !Shallow(raw, MAX_FRAME, MAX_DEPTH) then None
      else var entries :- lib.parseFields(raw); Some(JsonLog(entries))
    case 5 => var a :- p.a; var b :- p.b; Some(Event(a, b))
    case 6 =>
      if p.f >= 4 then None
      else var a :- p.a; var b :- p.b; Some(Metric(a, b, p.v, if p.f % 2 == 1 then Gauge else Counter, p.f / 2 % 2 == 1))
    case 7 => var a :- p.a; var b :- p.b; Some(Gap(a, b))
    case _ => None
  }

  function FromRow(r: Row, lib: Library): Option<Observation>
    requires |r.strings| == 7 && |r.numbers| == 7
  {
    var data :- FromParts(Parts(r.numbers[3], r.strings[4], r.strings[5], r.strings[6], r.numbers[4], r.numbers[5], r.numbers[6]), lib);
    if r.numbers[0] > 0xFFFF_FFFF then None
    else
      var registry :- r.strings[0];
      var producer :- r.strings[1];
      var generation :- r.strings[2];
      var resource :- r.strings[3];
      var o := Observation(r.numbers[0], registry, Identity(producer, generation, r.numbers[1]), r.numbers[2], resource, data);
      if Valid(o) then Some(o) else None
  }

  // ---------------------------------------------------------------- validation by streaming

  predicate RecordFits(o: Observation, fl: Floats) {
    Valid(o) && Shallow(Text(o, fl), MAX_FRAME, MAX_DEPTH)
  }

  predicate Validated(records: seq<Observation>, fl: Floats) {
    && 0 < |records| <= 32
    && (forall i :: 0 <= i < |records| ==> RecordFits(records[i], fl))
    && Shallow(BatchText(records, fl), MAX_INPUT, MAX_DEPTH + 1)
  }

  // ---------------------------------------------------------------- the payload

  function EncNumbers(numbers: seq<nat>): Bytes {
    if numbers == [] then [] else Le(numbers[0], 8) + EncNumbers(numbers[1..])
  }

  function EncOptional(s: Option<Bytes>): Bytes {
    match s
    case Some(s) => Le32(|s|) + s
    case None => Le32(NO_STRING)
  }

  function EncOptionals(strings: seq<Option<Bytes>>): Bytes {
    if strings == [] then [] else EncOptional(strings[0]) + EncOptionals(strings[1..])
  }

  function EncRow(r: Row): Bytes {
    EncNumbers(r.numbers) + EncOptionals(r.strings)
  }

  function EncRecords(records: seq<Observation>, fl: Floats): Bytes {
    if records == [] then [] else EncRow(ToRow(records[0], fl)) + EncRecords(records[1..], fl)
  }

  function EncDirect(records: seq<Observation>, fl: Floats): Bytes {
    Le32(|records|) + EncRecords(records, fl)
  }

  // ---------------------------------------------------------------- reading; a cursor's node budget is not used here

  function ReadNumbers(c: Cursor, n: nat, numbers: seq<nat>): (r: Option<Read<seq<nat>>>)
    ensures r.Some? ==> |r.value.value| == |numbers| + n
    decreases n
  {
    if n == 0 then Some(Read(numbers, c))
    else
      var x :- TakeInt(c, 8);
      ReadNumbers(x.after, n - 1, numbers + [x.value])
  }

  function ReadOptional(c: Cursor): Option<Read<Option<Bytes>>> {
    var n :- TakeInt(c, 4);
    if n.value == NO_STRING then Some(Read(None, n.after))
    else
      var expanded := n.after.expanded + n.value;
      if n.value > 65536 || expanded > MAX_INPUT then None
      else
        var s :- Take(n.after.(expanded := expanded), n.value);
        if Utf8(s.value) then Some(Read(Some(s.value), s.after)) else None
  }

  function ReadOptionals(c: Cursor, n: nat, strings: seq<Option<Bytes>>): (r: Option<Read<seq<Option<Bytes>>>>)
    ensures r.Some? ==> |r.value.value| == |strings| + n
    decreases n
  {
    if n == 0 then Some(Read(strings, c))
    else
      var s :- ReadOptional(c);
      ReadOptionals(s.after, n - 1, strings + [s.value])
  }

  function ReadRow(c: Cursor): (r: Option<Read<Row>>)
    ensures r.Some? ==> |r.value.value.strings| == 7 && |r.value.value.numbers| == 7
  {
    var numbers :- ReadNumbers(c, 7, []);
    var strings :- ReadOptionals(numbers.after, 7, []);
    Some(Read(Row(strings.value, numbers.value), strings.after))
  }

  function ReadRecords(c: Cursor, n: nat, lib: Library, records: seq<Observation>): Option<Read<seq<Observation>>>
    decreases n
  {
    if n == 0 then Some(Read(records, c))
    else
      var row :- ReadRow(c);
      var o :- FromRow(row.value, lib);
      ReadRecords(row.after, n - 1, lib, records + [o])
  }

  function ReadDirect(c: Cursor, lib: Library): Option<Read<seq<Observation>>> {
    var count :- TakeInt(c, 4);
    if count.value == 0 || count.value > 32 then None else ReadRecords(count.after, count.value, lib, [])
  }

  function DecodeDirect(bytes: Bytes, lib: Library): Option<seq<Observation>> {
    if |bytes| > MAX_FRAME_BYTES then None
    else
      var r :- ReadDirect(Cursor(bytes, 0, 0), lib);
      if r.after.rest == [] && Validated(r.value, lib.fl) then Some(r.value) else None
  }

  /** The frame of a direct batch, and its decoding. */
  function DirectFrame(records: seq<Observation>, fl: Floats): Bytes {
    Magic() + [3] + EncDirect(records, fl)
  }

  function DecodeDirectFrame(bytes: Bytes, lib: Library): Option<seq<Observation>> {
    var head := Magic() + [3];
    if |bytes| > MAX_FRAME_BYTES || |bytes| < |head| || bytes[..|head|] != head then None
    else DecodeDirect(bytes[|head|..], lib)
  }
}
