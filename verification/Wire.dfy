/** The read envelope and the export loop: fabric/src/spindle/wire.rs and fabric/src/bin/spindle.rs. */
module Wire {
  import opened Common
  import Json
  import Observations
  import opened Custody

  type Bytes = seq<byte>

  const REPLY_DEPTH := 16 + 3

  function Prefix(): (r: Bytes)
    ensures |r| == 31
  {
    Json.B("{\"result\":\"records\",\"records\":[")
  }

  datatype Refused = PageLimit | PayloadLimit | Undecodable | ReplyLimit

  function Envelope(records: seq<(nat, Bytes)>): Bytes {
    Prefix()
    + (if records == [] then [] else [0x5B] + Json.Decimal(records[0].0) + [0x2C] + records[0].1 + [0x5D])
    + [0x5D, 0x7D]
  }

  /** `encode_records`, its buffer grown piece by piece. */
  method EncodeRecords(records: seq<(nat, Bytes)>, decode: Decoder) returns (r: Result<Bytes, Refused>)
    ensures r.Ok? <==>
      && |records| <= 1 && (records != [] ==> |records[0].1| <= MAX_FRAME && decode(records[0].1).Some?)
      && Json.Shallow(Envelope(records), MAX_REPLY, REPLY_DEPTH)
    ensures r.Ok? ==> r.value == Envelope(records)
  {
    hide Json.Decimal, Json.ScanAll;
    if |records| > 1 {
      return Err(PageLimit);
    }
    var payload := if records == [] then 0 else |records[0].1|;
    if payload > MAX_FRAME {
      return Err(PayloadLimit);
    }
    var out := Prefix();
    if records != [] {
      if decode(records[0].1) == None {
        return Err(Undecodable);
      }
      out := out + [0x5B];
      out := out + Json.Decimal(records[0].0);
      out := out + [0x2C];
      out := out + records[0].1;
      out := out + [0x5D];
    }
    out := out + [0x5D, 0x7D];
    assert out == Envelope(records);
    var ok := Json.CheckJsonDepth(out, MAX_REPLY, REPLY_DEPTH);
    if !ok {
      return Err(ReplyLimit);
    }
    return Ok(out);
  }

  // ---------------------------------------------------------------- what a client reads from it

  /** {"result":"records","records":[ */
  function Head(): (r: Bytes)
    ensures |r| == 31
  {
    [0x7B, 0x22, 0x72, 0x65, 0x73, 0x75, 0x6C, 0x74, 0x22, 0x3A, 0x22, 0x72, 0x65, 0x63, 0x6F, 0x72, 0x64, 0x73, 0x22, 0x2C,
     0x22, 0x72, 0x65, 0x63, 0x6F, 0x72, 0x64, 0x73, 0x22, 0x3A, 0x5B]
  }

  predicate AllDigits(s: Bytes) {
    forall k :: 0 <= k < |s| ==> 0x30 <= s[k] <= 0x39
  }

  /** The number a run of decimal digits stands for. */
  function NumberOf(s: Bytes): nat
    requires AllDigits(s)
  {
    if s == [] then 0 else 10 * NumberOf(s[..|s| - 1]) + (s[|s| - 1] - 0x30)
  }

  /** Where the digits in front end. */
  function DigitsEnd(s: Bytes): (n: nat)
    ensures n <= |s| && AllDigits(s[..n]) && (n < |s| ==> !(0x30 <= s[n] <= 0x39))
  {
    if s == [] || !(0x30 <= s[0] <= 0x39) then 0
    else
      var n := DigitsEnd(s[1..]);
      assert forall k :: 0 < k < n + 1 ==> s[k] == s[1..][k - 1];
      n + 1
  }

  /** The records of a reply: none, or one pair of a 64-bit number and whatever stands between it and the closing brackets. */
  function ReadReply(bytes: Bytes): Option<seq<(nat, Bytes)>> {
    if |bytes| < 33 || bytes[..31] != Head() || bytes[|bytes| - 2..] != [0x5D, 0x7D] then None
    else
      var middle := bytes[31..|bytes| - 2];
      if middle == [] then Some([])
      else if |middle| < 4 || middle[0] != 0x5B || middle[|middle| - 1] != 0x5D then None
      else ReadPair(middle[1..|middle| - 1])
  }

  function ReadPair(pair: Bytes): Option<seq<(nat, Bytes)>> {
    var n := DigitsEnd(pair);
    if n == 0 || n == |pair| || pair[n] != 0x2C || NumberOf(pair[..n]) > U64_MAX then None
    else Some([(NumberOf(pair[..n]), pair[n + 1..])])
  }

  lemma {:induction false} DecimalDigits(n: nat)
    ensures AllDigits(Json.Decimal(n)) && NumberOf(Json.Decimal(n)) == n
  {
    if n >= 10 {
      DecimalDigits(n / 10);
      var s := Json.Decimal(n);
      assert s[..|s| - 1] == Json.Decimal(n / 10);
    } else {
      assert [0x30 + n][..0] == [];
    }
  }

  lemma {:induction false} DigitsStop(digits: Bytes, rest: Bytes)
    requires AllDigits(digits) && (rest == [] || !(0x30 <= rest[0] <= 0x39))
    ensures DigitsEnd(digits + rest) == |digits|
  {
    if digits != [] {
      assert (digits + rest)[1..] == digits[1..] + rest;
      DigitsStop(digits[1..], rest);
    } else {
      assert digits + rest == rest;
    }
  }

  lemma PairBack(id: nat, payload: Bytes)
    requires id <= U64_MAX
    ensures ReadPair(Json.Decimal(id) + [0x2C] + payload) == Some([(id, payload)])
  {
    hide Json.Decimal, NumberOf;
    var d := Json.Decimal(id);
    DecimalDigits(id);
    DigitsStop(d, [0x2C] + payload);
    var pair := d + ([0x2C] + payload);
    assert d + [0x2C] + payload == pair && pair[..|d|] == d && pair[|d| + 1..] == payload;
  }

  lemma HeadIsPrefix()
    ensures Prefix() == Head()
  {
  }

  /** A client gets back the very number and the very bytes, for every number up to the 64-bit maximum and any payload. */
  lemma EnvelopeBack(id: nat, payload: Bytes)
    requires id <= U64_MAX
    ensures ReadReply(Envelope([(id, payload)])) == Some([(id, payload)])
  {
    HeadIsPrefix();
    hide Prefix, Head, Json.Decimal, ReadPair;
    PairBack(id, payload);
    var pair := Json.Decimal(id) + [0x2C] + payload;
    var middle := [0x5B] + pair + [0x5D];
    var bytes := Envelope([(id, payload)]);
    assert bytes == Prefix() + middle + [0x5D, 0x7D];
    assert bytes[..31] == Prefix() && bytes[31..|bytes| - 2] == middle && bytes[|bytes| - 2..] == [0x5D, 0x7D];
    assert middle[1..|middle| - 1] == pair;
    assert |pair| >= 2;
  }

  lemma EmptyBack()
    ensures ReadReply(Envelope([])) == Some([])
  {
    HeadIsPrefix();
    hide Prefix, Head;
    var bytes := Envelope([]);
    assert bytes == Prefix() + [0x5D, 0x7D];
    assert bytes[..31] == Prefix() && bytes[31..|bytes| - 2] == [] && bytes[|bytes| - 2..] == [0x5D, 0x7D];
  }

  lemma PrintOne(x: Json.Value, fl: Json.Floats)
    ensures Json.PrintItems([x], fl) == Json.Print(x, fl)
  {
    assert [x][1..] == [];
    hide Json.Print;
  }

  lemma PrintTwo(x: Json.Value, y: Json.Value, fl: Json.Floats)
    ensures Json.PrintItems([x, y], fl) == Json.Print(x, fl) + [0x2C] + Json.Print(y, fl)
  {
    assert [x, y][1..] == [y];
    PrintOne(y, fl);
    hide Json.Print;
  }

  lemma PrintPair(a: Bytes, x: Json.Value, b: Bytes, y: Json.Value, fl: Json.Floats)
    ensures Json.PrintFields([Json.Field(a, x), Json.Field(b, y)], fl)
         == Json.Quoted(a) + [0x3A] + Json.Print(x, fl) + [0x2C] + (Json.Quoted(b) + [0x3A] + Json.Print(y, fl))
  {
    hide Json.Print, Json.Quoted;
    var f, g := Json.Field(a, x), Json.Field(b, y);
    assert [f, g][1..] == [g];
    PrintLast(b, y, fl);
  }

  lemma PrintLast(a: Bytes, x: Json.Value, fl: Json.Floats)
    ensures Json.PrintFields([Json.Field(a, x)], fl) == Json.Quoted(a) + [0x3A] + Json.Print(x, fl)
  {
    hide Json.Print, Json.Quoted;
    assert [Json.Field(a, x)][1..] == [];
  }

  lemma {:induction false} PlainEscaped(s: Bytes)
    requires forall k :: 0 <= k < |s| ==> 0x61 <= s[k] <= 0x7A
    ensures Json.Escaped(s) == s
  {
    if s != [] {
      PlainEscaped(s[1..]);
    }
  }

  /** Of a payload that is printed JSON the envelope is printed JSON too: the tagged reply with its one pair. */
  lemma EnvelopePrints(id: nat, v: Json.Value, fl: Json.Floats)
    ensures Envelope([(id, Json.Print(v, fl))])
         == Json.Print(Json.Object([Json.Field(Json.B("result"), Json.String(Json.B("records"))),
                                    Json.Field(Json.B("records"), Json.Array([Json.Array([Json.Number(Json.PosInt(id)), v])]))]), fl)
  {
    hide *;
    var result, records := Json.B("result"), Json.B("records");
    var number, one := Json.Number(Json.PosInt(id)), Json.Array([Json.Number(Json.PosInt(id)), v]);
    NamesQuoted(result, records);
    PrintTwo(number, v, fl);
    PrintOne(one, fl);
    PrintPair(result, Json.String(records), records, Json.Array([one]), fl);
    NumberPrints(id, fl);
    ArrayPrints([number, v], fl);
    ArrayPrints([one], fl);
    StringPrints(records, fl);
    ObjectPrints([Json.Field(result, Json.String(records)), Json.Field(records, Json.Array([one]))], fl);
    EnvelopeParts(id, Json.Print(v, fl));
    PairText(Prefix(), Json.Decimal(id), Json.Print(v, fl), result, records);
  }

  lemma EnvelopeParts(id: nat, payload: Bytes)
    ensures Envelope([(id, payload)]) == Prefix() + ([0x5B] + Json.Decimal(id) + [0x2C] + payload + [0x5D]) + [0x5D, 0x7D]
  {
    hide Prefix, Json.Decimal;
  }

  lemma NamesQuoted(result: Bytes, records: Bytes)
    requires result == Json.B("result") && records == Json.B("records")
    ensures var q := [0x22];
      && Json.Quoted(result) == q + result + q && Json.Quoted(records) == q + records + q
      && Prefix() == [0x7B] + (q + result + q) + [0x3A] + (q + records + q) + [0x2C] + (q + records + q) + [0x3A] + [0x5B]
  {
    assert result == [0x72, 0x65, 0x73, 0x75, 0x6C, 0x74] && records == [0x72, 0x65, 0x63, 0x6F, 0x72, 0x64, 0x73];
    PlainEscaped(result);
    PlainEscaped(records);
    PrefixParts();
    assert Json.B("{") == [0x7B] && Json.B("[") == [0x5B];
  }

  lemma NumberPrints(id: nat, fl: Json.Floats)
    ensures Json.Print(Json.Number(Json.PosInt(id)), fl) == Json.Decimal(id)
  {
  }

  lemma StringPrints(s: Bytes, fl: Json.Floats)
    ensures Json.Print(Json.String(s), fl) == Json.Quoted(s)
  {
  }

  lemma ArrayPrints(items: seq<Json.Value>, fl: Json.Floats)
    ensures Json.Print(Json.Array(items), fl) == [0x5B] + Json.PrintItems(items, fl) + [0x5D]
  {
  }

  lemma ObjectPrints(fields: seq<Json.Field>, fl: Json.Floats)
    ensures Json.Print(Json.Object(fields), fl) == [0x7B] + Json.PrintFields(fields, fl) + [0x7D]
  {
  }

  /** The same text, cut in two ways. */
  lemma PairText(prefix: Bytes, d: Bytes, p: Bytes, result: Bytes, records: Bytes)
    requires var q := [0x22];
      prefix == [0x7B] + (q + result + q) + [0x3A] + (q + records + q) + [0x2C] + (q + records + q) + [0x3A] + [0x5B]
    ensures var q := [0x22];
      prefix + ([0x5B] + d + [0x2C] + p + [0x5D]) + [0x5D, 0x7D]
      == [0x7B] + ((q + result + q) + [0x3A] + (q + records + q) + [0x2C]
                   + ((q + records + q) + [0x3A] + ([0x5B] + ([0x5B] + (d + [0x2C] + p) + [0x5D]) + [0x5D]))) + [0x7D]
  {
  }

  // ---------------------------------------------------------------- the envelope never refuses what was stored

  /** The same place in the text, at most k deeper. */
  predicate Shifted(s: Json.Scan, t: Json.Scan, k: nat) {
    t.quoted == s.quoted && t.escaped == s.escaped && t.depth <= s.depth + k && t.peak <= s.peak + k
  }

  /** Scanning from k levels down reaches at most k levels deeper, whatever the bytes: unbalanced, or inside a string. */
  lemma {:induction false} ScanShifted(s: Json.Scan, t: Json.Scan, bytes: Bytes, k: nat)
    requires Shifted(s, t, k) && s.depth <= s.peak
    ensures Shifted(Json.ScanAll(s, bytes), Json.ScanAll(t, bytes), k)
    decreases |bytes|
  {
    if bytes != [] {
      ScanShifted(Json.Scanned(s, bytes[0]), Json.Scanned(t, bytes[0]), bytes[1..], k);
    }
  }

  /** Closing brackets never reach deeper. */
  lemma ScanClosing(s: Json.Scan)
    ensures Json.ScanAll(s, [0x5D] + [0x5D, 0x7D]).peak == s.peak
  {
    assert ([0x5D] + [0x5D, 0x7D])[1..] == [0x5D, 0x7D] && [0x5D, 0x7D][1..] == [0x7D] && [0x7D][1..] == [];
  }

  lemma ScanPrefix()
    ensures Json.ScanAll(Json.FRESH, Prefix()) == Json.Scan(2, false, false, 2)
  {
    var a, b, c, d := Json.B("{"), Json.B("result"), Json.B("records"), Json.B("[");
    var q, k, m := [0x22], [0x3A], [0x2C];
    PrefixParts();
    hide Prefix;
    Word(b, c);
    var s := Json.Scan(1, false, false, 1);
    Json.ScanOne(Json.FRESH, 0x7B);
    assert a == [0x7B] && d == [0x5B];
    QuotedWord(s, b);
    QuotedWord(s, c);
    Json.ScanPlain(s, k);
    Json.ScanPlain(s, m);
    Json.ScanOne(s, 0x5B);
    hide Json.B, Json.ScanAll;
    Json.ScanJoin(Json.FRESH, a, q + b + q);
    Json.ScanJoin(Json.FRESH, a + (q + b + q), k);
    Json.ScanJoin(Json.FRESH, a + (q + b + q) + k, q + c + q);
    Json.ScanJoin(Json.FRESH, a + (q + b + q) + k + (q + c + q), m);
    Json.ScanJoin(Json.FRESH, a + (q + b + q) + k + (q + c + q) + m, q + c + q);
    Json.ScanJoin(Json.FRESH, a + (q + b + q) + k + (q + c + q) + m + (q + c + q), k);
    Json.ScanJoin(Json.FRESH, a + (q + b + q) + k + (q + c + q) + m + (q + c + q) + k, d);
  }

  lemma PrefixParts()
    ensures var q := [0x22];
      Prefix() == Json.B("{") + (q + Json.B("result") + q) + [0x3A] + (q + Json.B("records") + q) + [0x2C]
                  + (q + Json.B("records") + q) + [0x3A] + Json.B("[")
  {
  }

  lemma Word(b: Bytes, c: Bytes)
    requires b == Json.B("result") && c == Json.B("records")
    ensures forall i :: 0 <= i < |b| ==> b[i] != 0x22 && b[i] != 0x5C
    ensures forall i :: 0 <= i < |c| ==> c[i] != 0x22 && c[i] != 0x5C
  {
    assert b == [0x72, 0x65, 0x73, 0x75, 0x6C, 0x74];
    assert c == [0x72, 0x65, 0x63, 0x6F, 0x72, 0x64, 0x73];
  }

  lemma QuotedWord(s: Json.Scan, w: Bytes)
    requires !s.quoted && !s.escaped && forall i :: 0 <= i < |w| ==> w[i] != 0x22 && w[i] != 0x5C
    ensures Json.ScanAll(s, [0x22] + w + [0x22]) == s
  {
    var inside := Json.Scanned(s, 0x22);
    Json.ScanOne(s, 0x22);
    Json.ScanQuiet(inside, w);
    Json.ScanOne(inside, 0x22);
    Json.ScanJoin(s, [0x22], w);
    Json.ScanJoin(s, [0x22] + w, [0x22]);
  }

  lemma {:induction false} DecimalShort(n: nat, digits: nat)
    requires n < TenTo(digits) && digits > 0
    ensures |Json.Decimal(n)| <= digits
    decreases digits
  {
    if n >= 10 {
      DecimalShort(n / 10, digits - 1);
    }
  }

  function TenTo(k: nat): nat {
    if k == 0 then 1 else 10 * TenTo(k - 1)
  }

  lemma TwentyDigits()
    ensures U64_MAX < TenTo(20)
  {
    assert TenTo(10) == 10_000_000_000;
    assert TenTo(15) == 100_000 * TenTo(10);
    assert TenTo(20) == 100_000 * TenTo(15);
  }

  /** What the scanner makes of the text in front of a payload. */
  lemma ScanFront(id: nat)
    ensures Json.ScanAll(Json.ScanAll(Json.ScanAll(Json.ScanAll(Json.FRESH, Prefix()), [0x5B]), Json.Decimal(id)), [0x2C])
         == Json.Scan(3, false, false, 3)
  {
    ScanPrefix();
    Json.DecimalPlain(id);
    hide Json.Decimal, Prefix, Json.ScanAll;
    Json.ScanOne(Json.Scan(2, false, false, 2), 0x5B);
    Json.ScanPlain(Json.Scan(3, false, false, 3), Json.Decimal(id));
    Json.ScanPlain(Json.Scan(3, false, false, 3), [0x2C]);
  }

  /** Any payload that passed the scanner on its own fits the reply, in size and in depth. */
  lemma EnvelopeFits(id: nat, payload: Bytes)
    requires id <= U64_MAX && Json.Shallow(payload, MAX_FRAME, Observations.MAX_DEPTH)
    ensures Json.Shallow(Envelope([(id, payload)]), MAX_REPLY, REPLY_DEPTH)
  {
    hide Json.Decimal, Prefix, TenTo, Json.ScanAll, Json.Scanned;
    TwentyDigits();
    DecimalShort(id, 20);
    ScanFront(id);
    ScanShifted(Json.FRESH, Json.Scan(3, false, false, 3), payload, 3);
    ScanClosing(Json.ScanAll(Json.Scan(3, false, false, 3), payload));
    assert [0x5D] + [0x5D, 0x7D] == [0x5D, 0x5D, 0x7D];
    JoinSix(Json.FRESH, Prefix(), [0x5B], Json.Decimal(id), [0x2C], payload, [0x5D, 0x5D, 0x7D]);
    assert Envelope([(id, payload)]) == Prefix() + [0x5B] + Json.Decimal(id) + [0x2C] + payload + [0x5D, 0x5D, 0x7D];
  }

  lemma JoinSix(s: Json.Scan, a: Bytes, b: Bytes, c: Bytes, d: Bytes, e: Bytes, f: Bytes)
    ensures Json.ScanAll(s, a + b + c + d + e + f)
         == Json.ScanAll(Json.ScanAll(Json.ScanAll(Json.ScanAll(Json.ScanAll(Json.ScanAll(s, a), b), c), d), e), f)
  {
    hide Json.ScanAll;
    Json.ScanJoin(s, a, b);
    Json.ScanJoin(s, a + b, c);
    Json.ScanJoin(s, a + b + c, d);
    Json.ScanJoin(s, a + b + c + d, e);
    Json.ScanJoin(s, a + b + c + d + e, f);
  }

  lemma EmptyEnvelopeFits()
    ensures Json.Shallow(Envelope([]), MAX_REPLY, REPLY_DEPTH)
  {
    ScanPrefix();
    var s := Json.Scan(2, false, false, 2);
    Json.ScanJoin(Json.FRESH, Prefix(), [0x5D, 0x7D]);
    assert [0x5D, 0x7D][1..] == [0x7D] && [0x7D][1..] == [];
    assert Envelope([]) == Prefix() + [0x5D, 0x7D];
    hide Prefix;
  }

  /** Decoding starts with the scanner: `observation::decode` accepts only what `check_json` accepts. */
  ghost predicate Checks(decode: Decoder) {
    forall bytes :: decode(bytes).Some? ==> Json.Shallow(bytes, MAX_FRAME, Observations.MAX_DEPTH)
  }

  /** What the store accepted it hands out: neither refusal of `read_raw` ever applies. */
  lemma PagesAreRead(t: Tables, decode: Decoder, after: nat, limit: nat)
    requires TablesOk(t, decode) && Checks(decode)
    ensures ReadPage(t, decode, after, limit) == Some(ReadRaw(t, after, limit))
  {
    hide Json.ScanAll;
    var page := ReadRaw(t, after, limit);
    if page != [] {
      var row := t.rows[after];
      assert decode(row.payload) == Some(row.identity);
      Small(row.payload);
    }
  }

  /** A read request: none if the store refuses the page, otherwise what the envelope makes of it. */
  method ServeRead(t: Tables, decode: Decoder, after: nat, limit: nat) returns (r: Option<Result<Bytes, Refused>>)
    requires TablesOk(t, decode) && Checks(decode) && |t.rows| <= U64_MAX
    ensures r == Some(Ok(Envelope(ReadRaw(t, after, Min(limit, 1)))))
  {
    hide Envelope, Json.Shallow, Find;
    PagesAreRead(t, decode, after, Min(limit, 1));
    var page := ReadPage(t, decode, after, Min(limit, 1));
    if page == None {
      return None;
    }
    if page.value != [] {
      var row := t.rows[after];
      assert decode(row.payload) == Some(row.identity);
      EnvelopeFits(after + 1, row.payload);
      Small(row.payload);
    } else {
      EmptyEnvelopeFits();
    }
    var reply := EncodeRecords(page.value, decode);
    return Some(reply);
  }

  lemma Small(payload: Bytes)
    requires Json.Shallow(payload, MAX_FRAME, Observations.MAX_DEPTH)
    ensures |payload| <= MAX_FRAME
  {
  }

  // ---------------------------------------------------------------- export

  datatype Exported = Done | Failed

  /** The store as each request finds it: in order, records are only ever added, and their ids stay within 64 bits. */
  ghost predicate Grows(world: nat -> Tables, decode: Decoder) {
    && (forall k: nat :: |world(k).rows| <= U64_MAX)
    && (forall j: nat, k: nat :: j <= k ==> world(j).rows <= world(k).rows)
    && (forall k: nat :: TablesOk(world(k), decode))
  }

  /** What is printed of each record: its observation, parsed and serialised again. */
  function Lines(rows: seq<Row>, shown: Bytes -> Bytes): seq<Bytes> {
    seq(|rows|, i requires 0 <= i < |rows| => shown(rows[i].payload))
  }

  /**
  The pagination loop, on what it reads from the bytes of each reply. Whatever is committed meanwhile, it ends having
  printed every record up to the boundary it saw first, each once, in id order; it fails exactly at the first failing
  request, and then a prefix is printed.
  */
  method Export(world: nat -> Tables, decode: Decoder, shown: Bytes -> Bytes, fail: nat -> bool) returns (printed: seq<Bytes>, r: Exported)
    requires Grows(world, decode) && Checks(decode)
    ensures printed <= Lines(world(0).rows, shown)
    ensures r == Done ==> printed == Lines(world(0).rows, shown)
    ensures r == Done <==> forall k: nat :: k <= |world(0).rows| ==> !fail(k)
    ensures r == Failed ==> fail(if printed == [] && fail(0) then 0 else |printed| + 1)
    ensures forall k: nat :: 0 < k <= |printed| ==> !fail(k)
  {
    hide Checks, TablesOk, ReadRaw, Envelope, ReadReply;
    printed := [];
    if fail(0) {
      return printed, Failed;
    }
    var boundary := |world(0).rows|;
    var after, k := 0, 1;
    while after < boundary
      invariant after == |printed| <= boundary && printed == Lines(world(0).rows, shown)[..after] && k == after + 1
      invariant forall j: nat :: j < k ==> !fail(j)
    {
      if fail(k) {
        return printed, Failed;
      }
      var reply := ServeRead(world(k), decode, after, 1);
      ReplyRead(world, k, after, decode);
      if reply == None || reply.value.Err? {
        return printed, Failed;
      }
      var page := ReadReply(reply.value.value);
      if page == None || page.value == [] {
        return printed, Failed;
      }
      var records := page.value;
      ghost var start := after;
      for i := 0 to |records|
        invariant |records| == 1 && start < boundary && after == |printed| == start + i
        invariant records[0] == (start + 1, world(0).rows[start].payload)
        invariant printed == Lines(world(0).rows, shown)[..after]
      {
        var id := records[i].0;
        if id > boundary {
          return printed, Done;
        }
        after := id;
        printed := printed + [shown(records[i].1)];
      }
      k := k + 1;
    }
    r := Done;
  }

  /** The reply to the k-th request holds the record behind `after` as it was at the start. */
  lemma ReplyRead(world: nat -> Tables, k: nat, after: nat, decode: Decoder)
    requires Grows(world, decode) && after < |world(0).rows|
    ensures ReadReply(Envelope(ReadRaw(world(k), after, 1))) == Some([(after + 1, world(0).rows[after].payload)])
  {
    assert world(0).rows <= world(k).rows;
    hide Envelope, ReadReply;
    EnvelopeBack(after + 1, world(0).rows[after].payload);
  }
}
