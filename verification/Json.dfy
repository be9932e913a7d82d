/**
JSON values as serde_json holds them, their compact text, and the nesting scanner: fabric/src/observation.rs
(`check_json_depth`) and xtask/src/representation/direct.rs (`Limit`).
*/
module Json {
  import opened Common

  type Bytes = seq<byte>

  /** The bytes of an ASCII literal. */
  function B(s: string): (r: Bytes)
    ensures |r| == |s|
  {
    seq(|s|, i requires 0 <= i < |s| => (s[i] as int) % 256)
  }

  // ---------------------------------------------------------------- values

  datatype Num = PosInt(n: nat) | NegInt(m: int) | Float(bits: nat)

  datatype Field = Field(key: Bytes, value: Value)

  /** An object lists its fields in iteration order; serde_json's map iterates in key order. */
  datatype Value = Null | Bool(b: bool) | Number(num: Num) | String(s: Bytes) | Array(items: seq<Value>) | Object(fields: seq<Field>)

  /** What is used of float printing and conversion: the shortest text, and the float nearest to an integer. */
  datatype Floats = Floats(text: nat -> Bytes, nearest: int -> nat)

  predicate Finite(bits: nat) {
    (bits / 0x10_0000_0000_0000) % 2048 != 2047
  }

  predicate NumOk(n: Num) {
    match n
    case PosInt(n) => n <= U64_MAX
    case NegInt(m) => -0x8000_0000_0000_0000 <= m < 0
    case Float(bits) => bits <= U64_MAX && Finite(bits)
  }

  // ---------------------------------------------------------------- key order

  predicate Less(a: Bytes, b: Bytes) {
    b != [] && (a == [] || a[0] < b[0] || (a[0] == b[0] && Less(a[1..], b[1..])))
  }

  lemma {:induction false} LessTrans(a: Bytes, b: Bytes, c: Bytes)
    requires Less(a, b) && Less(b, c)
    ensures Less(a, c)
  {
    if a != [] && a[0] == b[0] && b[0] == c[0] {
      LessTrans(a[1..], b[1..], c[1..]);
    }
  }

  lemma {:induction false} LessTotal(a: Bytes, b: Bytes)
    ensures Less(a, b) || a == b || Less(b, a)
    ensures !(Less(a, b) && Less(b, a)) && !Less(a, a)
  {
    if a != [] && b != [] && a[0] == b[0] {
      LessTotal(a[1..], b[1..]);
      if a[1..] == b[1..] {
        assert a == [a[0]] + a[1..] && b == [b[0]] + b[1..];
      }
    }
    if a != [] {
      LessTotal(a[1..], a[1..]);
    }
  }

  ghost predicate Sorted(fields: seq<Field>) {
    forall i, j :: 0 <= i < j < |fields| ==> Less(fields[i].key, fields[j].key)
  }

  function Get(fields: seq<Field>, key: Bytes): Option<Value> {
    if fields == [] then None
    else if fields[0].key == key then Some(fields[0].value)
    else Get(fields[1..], key)
  }

  /** Inserting a key that is not there yet. */
  function Insert(fields: seq<Field>, key: Bytes, value: Value): (r: seq<Field>)
    ensures |r| == |fields| + 1
  {
    if fields == [] || Less(key, fields[0].key) then [Field(key, value)] + fields
    else [fields[0]] + Insert(fields[1..], key, value)
  }

  function Build(fields: seq<Field>): (r: seq<Field>)
    ensures |r| == |fields|
  {
    if fields == [] then []
    else var last := fields[|fields| - 1]; Insert(Build(fields[..|fields| - 1]), last.key, last.value)
  }

  lemma {:induction false} GetInsert(fields: seq<Field>, key: Bytes, value: Value, k: Bytes)
    requires Get(fields, key) == None
    ensures Get(Insert(fields, key, value), k) == if k == key then Some(value) else Get(fields, k)
  {
    if !(fields == [] || Less(key, fields[0].key)) {
      GetInsert(fields[1..], key, value, k);
    }
  }

  lemma {:induction false} InsertSorted(fields: seq<Field>, key: Bytes, value: Value)
    requires Sorted(fields) && Get(fields, key) == None
    ensures Sorted(Insert(fields, key, value))
    ensures forall f :: f in Insert(fields, key, value) <==> f in fields || f == Field(key, value)
  {
    if fields == [] {
    } else if Less(key, fields[0].key) {
      forall j | 0 <= j < |fields|
        ensures Less(key, fields[j].key)
      {
        if j > 0 {
          LessTrans(key, fields[0].key, fields[j].key);
        }
      }
    } else {
      LessTotal(key, fields[0].key);
      var rest := Insert(fields[1..], key, value);
      InsertSorted(fields[1..], key, value);
      forall j | 0 <= j < |rest|
        ensures Less(fields[0].key, rest[j].key)
      {
        assert rest[j] in rest;
        if rest[j] in fields[1..] {
          var i :| 0 <= i < |fields[1..]| && fields[1..][i] == rest[j];
          assert fields[i + 1] == rest[j];
        }
      }
    }
  }

  lemma {:induction false} GetMember(fields: seq<Field>, key: Bytes)
    ensures Get(fields, key).Some? <==> exists k :: 0 <= k < |fields| && fields[k].key == key
    ensures Get(fields, key).Some? ==> Field(key, Get(fields, key).value) in fields
  {
    if fields != [] && fields[0].key != key {
      GetMember(fields[1..], key);
      if Get(fields[1..], key).Some? {
        var k :| 0 <= k < |fields[1..]| && fields[1..][k].key == key;
        assert fields[k + 1].key == key;
      }
      if k :| 0 <= k < |fields| && fields[k].key == key {
        assert fields[1..][k - 1].key == key;
      }
    }
  }

  /** A key past the last one goes to the end. */
  lemma {:induction false} InsertLast(fields: seq<Field>, key: Bytes, value: Value)
    requires forall i :: 0 <= i < |fields| ==> Less(fields[i].key, key)
    ensures Insert(fields, key, value) == fields + [Field(key, value)]
    ensures Get(fields, key) == None
  {
    if fields != [] {
      LessTotal(fields[0].key, key);
      InsertLast(fields[1..], key, value);
    }
  }

  // ---------------------------------------------------------------- printing

  const QUOTE: byte := 0x22
  const BACKSLASH: byte := 0x5C
  const COMMA: byte := 0x2C
  const COLON: byte := 0x3A
  const OPEN_ARRAY: byte := 0x5B
  const CLOSE_ARRAY: byte := 0x5D
  const OPEN_OBJECT: byte := 0x7B
  const CLOSE_OBJECT: byte := 0x7D

  function Hex(n: nat): byte
    requires n < 16
  {
    if n < 10 then 0x30 + n else 0x61 + n - 10
  }

  function Escape(b: byte): Bytes {
    if b == QUOTE || b == BACKSLASH then [BACKSLASH, b]
    else if b == 0x08 then [BACKSLASH, 0x62]
    else if b == 0x09 then [BACKSLASH, 0x74]
    else if b == 0x0A then [BACKSLASH, 0x6E]
    else if b == 0x0C then [BACKSLASH, 0x66]
    else if b == 0x0D then [BACKSLASH, 0x72]
    else if b < 0x20 then [BACKSLASH, 0x75, 0x30, 0x30, Hex(b / 16), Hex(b % 16)]
    else [b]
  }

  function Escaped(s: Bytes): Bytes {
    if s == [] then [] else Escape(s[0]) + Escaped(s[1..])
  }

  function Quoted(s: Bytes): Bytes {
    [QUOTE] + Escaped(s) + [QUOTE]
  }

  function Decimal(n: nat): (r: Bytes)
    ensures r != []
  {
    if n < 10 then [0x30 + n] else Decimal(n / 10) + [0x30 + n % 10]
  }

  function PrintNum(n: Num, fl: Floats): Bytes {
    match n
    case PosInt(n) => Decimal(n)
    case NegInt(m) => [0x2D] + Decimal(if m < 0 then -m else 0)
    case Float(bits) => fl.text(bits)
  }

  function Print(v: Value, fl: Floats): Bytes
    decreases v, 0
  {
    match v
    case Null => B("null")
    case Bool(b) => if b then B("true") else B("false")
    case Number(n) => PrintNum(n, fl)
    case String(s) => Quoted(s)
    case Array(items) => [OPEN_ARRAY] + PrintItems(items, fl) + [CLOSE_ARRAY]
    case Object(fields) => [OPEN_OBJECT] + PrintFields(fields, fl) + [CLOSE_OBJECT]
  }

  function PrintItems(items: seq<Value>, fl: Floats): Bytes
    decreases items, 0
  {
    if items == [] then []
    else Print(items[0], fl) + (if |items| > 1 then [COMMA] else []) + PrintItems(items[1..], fl)
  }

  function PrintFields(fields: seq<Field>, fl: Floats): Bytes
    decreases fields, 0
  {
    if fields == [] then []
    else
      Quoted(fields[0].key) + [COLON] + Print(fields[0].value, fl) + (if |fields| > 1 then [COMMA] else [])
      + PrintFields(fields[1..], fl)
  }

  // ---------------------------------------------------------------- the scanner

  datatype Scan = Scan(depth: nat, quoted: bool, escaped: bool, peak: nat)

  function Scanned(s: Scan, b: byte): Scan {
    if s.quoted then
      if s.escaped then s.(escaped := false)
      else if b == BACKSLASH then s.(escaped := true)
      else if b == QUOTE then s.(quoted := false)
      else s
    else if b == QUOTE then s.(quoted := true)
    else if b == OPEN_OBJECT || b == OPEN_ARRAY then s.(depth := s.depth + 1, peak := Max(s.peak, s.depth + 1))
    else if b == CLOSE_OBJECT || b == CLOSE_ARRAY then s.(depth := if s.depth == 0 then 0 else s.depth - 1)
    else s
  }

  function ScanAll(s: Scan, bytes: Bytes): Scan
    decreases |bytes|
  {
    if bytes == [] then s else ScanAll(Scanned(s, bytes[0]), bytes[1..])
  }

  const FRESH := Scan(0, false, false, 0)

  /** Accepted by `check_json_depth`: short enough, and never nested too deep. */
  predicate Shallow(bytes: Bytes, limit: nat, maxDepth: nat) {
    |bytes| <= limit && ScanAll(FRESH, bytes).peak <= maxDepth
  }

  lemma {:induction false} ScanJoin(s: Scan, a: Bytes, b: Bytes)
    ensures ScanAll(s, a + b) == ScanAll(ScanAll(s, a), b)
    decreases |a|
  {
    if a == [] {
      assert a + b == b;
    } else {
      assert (a + b)[1..] == a[1..] + b;
      ScanJoin(Scanned(s, a[0]), a[1..], b);
    }
  }

  lemma {:induction false} PeakGrows(s: Scan, bytes: Bytes)
    ensures ScanAll(s, bytes).peak >= s.peak
    decreases |bytes|
  {
    if bytes != [] {
      PeakGrows(Scanned(s, bytes[0]), bytes[1..]);
    }
  }

  /** The loop of `check_json_depth`, with its early return. */
  method CheckJsonDepth(bytes: Bytes, limit: nat, maxDepth: nat) returns (ok: bool)
    ensures ok <==> Shallow(bytes, limit, maxDepth)
  {
    if |bytes| > limit {
      return false;
    }
    var depth, quoted, escaped := 0, false, false;
    ghost var s := FRESH;
    assert bytes[0..] == bytes;
    for i := 0 to |bytes|
      invariant ScanAll(FRESH, bytes) == ScanAll(s, bytes[i..])
      invariant s.depth == depth && s.quoted == quoted && s.escaped == escaped && s.peak <= maxDepth
    {
      var b := bytes[i];
      s := Scanned(s, b);
      assert bytes[i..][1..] == bytes[i + 1..];
      if quoted {
        if escaped {
          escaped := false;
        } else if b == BACKSLASH {
          escaped := true;
        } else if b == QUOTE {
          quoted := false;
        }
      } else if b == QUOTE {
        quoted := true;
      } else if b == OPEN_OBJECT || b == OPEN_ARRAY {
        depth := depth + 1;
        if depth > maxDepth {
          PeakGrows(s, bytes[i + 1..]);
          return false;
        }
      } else if b == CLOSE_OBJECT || b == CLOSE_ARRAY {
        depth := if depth == 0 then 0 else depth - 1;
      }
    }
    ok := true;
  }

  /** The streaming counter that takes the serializer's writes one chunk at a time. */
  class Limit {
    var len: nat
    var depth: nat
    var quoted: bool
    var escaped: bool
    const limit: nat
    const maxDepth: nat
    ghost var seen: Bytes
    ghost var failed: bool

    ghost predicate Valid()
      reads this
    {
      && len == |seen| <= limit
      && (!failed ==> Shallow(seen, limit, maxDepth) && ScanAll(FRESH, seen).(peak := 0) == Scan(depth, quoted, escaped, 0))
    }

    constructor (limit: nat, maxDepth: nat)
      ensures Valid() && seen == [] && !failed && this.limit == limit && this.maxDepth == maxDepth
    {
      this.limit := limit;
      this.maxDepth := maxDepth;
      len, depth, quoted, escaped := 0, 0, false, false;
      seen, failed := [], false;
    }

    /** Accepts a chunk exactly when everything so far, this chunk included, is within both bounds. */
    method Write(chunk: Bytes) returns (ok: bool)
      requires Valid() && !failed
      modifies this
      ensures Valid() && failed == !ok
      ensures ok <==> Shallow(old(seen) + chunk, limit, maxDepth)
      ensures ok ==> seen == old(seen) + chunk
    {
      ScanJoin(FRESH, seen, chunk);
      ghost var s := ScanAll(FRESH, seen);
      if |chunk| > limit - len {
        failed := true;
        return false;
      }
      assert chunk[0..] == chunk;
      for i := 0 to |chunk|
        invariant len == old(len) && seen == old(seen) && failed == old(failed)
        invariant ScanAll(FRESH, seen + chunk) == ScanAll(s, chunk[i..])
        invariant s.depth == depth && s.quoted == quoted && s.escaped == escaped && s.peak <= maxDepth
      {
        var c := chunk[i];
        s := Scanned(s, c);
        assert chunk[i..][1..] == chunk[i + 1..];
        if quoted {
          if escaped {
            escaped := false;
          } else if c == BACKSLASH {
            escaped := true;
          } else if c == QUOTE {
            quoted := false;
          }
        } else if c == QUOTE {
          quoted := true;
        } else if c == OPEN_OBJECT || c == OPEN_ARRAY {
          depth := depth + 1;
          if depth > maxDepth {
            PeakGrows(s, chunk[i + 1..]);
            failed := true;
            return false;
          }
        } else if c == CLOSE_OBJECT || c == CLOSE_ARRAY {
          depth := if depth == 0 then 0 else depth - 1;
        }
      }
      len := len + |chunk|;
      seen := seen + chunk;
      ok := true;
    }
  }

  /** `serde_json::to_writer` into a `Limit`: however the text is cut into writes, the verdict is the scanner's on the whole. */
  method Stream(chunks: seq<Bytes>, limit: nat, maxDepth: nat) returns (ok: bool)
    ensures ok <==> Shallow(Concat(chunks), limit, maxDepth)
  {
    var size := new Limit(limit, maxDepth);
    ok := true;
    var i := 0;
    assert [] + Concat(chunks) == Concat(chunks) && chunks[0..] == chunks;
    while i < |chunks|
      invariant 0 <= i <= |chunks| && size.limit == limit && size.maxDepth == maxDepth && fresh(size)
      invariant size.Valid() && !size.failed && size.seen + Concat(chunks[i..]) == Concat(chunks)
    {
      ghost var sofar := size.seen + chunks[i];
      assert chunks[i..][1..] == chunks[i + 1..];
      assert Concat(chunks) == sofar + Concat(chunks[i + 1..]);
      ok := size.Write(chunks[i]);
      if !ok {
        TooMuchAlready(sofar, Concat(chunks[i + 1..]), limit, maxDepth);
        return false;
      }
      i := i + 1;
    }
    assert size.seen == Concat(chunks);
  }

  lemma TooMuchAlready(a: Bytes, b: Bytes, limit: nat, maxDepth: nat)
    ensures !Shallow(a, limit, maxDepth) ==> !Shallow(a + b, limit, maxDepth)
  {
    ScanJoin(FRESH, a, b);
    PeakGrows(ScanAll(FRESH, a), b);
  }

  // ---------------------------------------------------------------- the scanner on printed text

  /** How deep arrays and objects nest. */
  function Nesting(v: Value): nat
    decreases v, 0
  {
    match v
    case Array(items) => 1 + NestingItems(items)
    case Object(fields) => 1 + NestingFields(fields)
    case _ => 0
  }

  function NestingItems(items: seq<Value>): nat
    decreases items, 0
  {
    if items == [] then 0 else Max(Nesting(items[0]), NestingItems(items[1..]))
  }

  function NestingFields(fields: seq<Field>): nat
    decreases fields, 0
  {
    if fields == [] then 0 else Max(Nesting(fields[0].value), NestingFields(fields[1..]))
  }

  /** Bytes that mean nothing to the scanner outside a string. */
  predicate Plain(bytes: Bytes) {
    forall k :: 0 <= k < |bytes| ==> bytes[k] !in {QUOTE, OPEN_ARRAY, CLOSE_ARRAY, OPEN_OBJECT, CLOSE_OBJECT}
  }

  /** Float texts are digits, signs, points and exponents. */
  ghost predicate FloatsOk(fl: Floats) {
    && (forall bits :: Plain(fl.text(bits)) && |fl.text(bits)| >= 3)
    && (forall n :: fl.nearest(n) <= U64_MAX && Finite(fl.nearest(n)))
  }

  lemma {:induction false} ScanPlain(s: Scan, bytes: Bytes)
    requires !s.quoted && Plain(bytes)
    ensures ScanAll(s, bytes) == s
    decreases |bytes|
  {
    if bytes != [] {
      assert bytes[0] !in {QUOTE, OPEN_ARRAY, CLOSE_ARRAY, OPEN_OBJECT, CLOSE_OBJECT};
      ScanPlain(s, bytes[1..]);
    }
  }

  lemma {:induction false} DecimalPlain(n: nat)
    ensures Plain(Decimal(n))
  {
    if n >= 10 {
      DecimalPlain(n / 10);
    }
  }

  lemma ScanEscape(s: Scan, b: byte)
    requires s.quoted && !s.escaped
    ensures ScanAll(s, Escape(b)) == s
  {
    var e := Escape(b);
    ScanJoin(s, e[..1], e[1..]);
    assert e == e[..1] + e[1..];
    if |e| > 2 {
      ScanQuiet(s, e[2..]);
      ScanJoin(s, e[..2], e[2..]);
      assert e == e[..2] + e[2..];
    }
  }

  lemma {:induction false} ScanQuiet(s: Scan, bytes: Bytes)
    requires s.quoted && !s.escaped && forall k :: 0 <= k < |bytes| ==> bytes[k] != BACKSLASH && bytes[k] != QUOTE
    ensures ScanAll(s, bytes) == s
    decreases |bytes|
  {
    if bytes != [] {
      ScanQuiet(s, bytes[1..]);
    }
  }

  lemma {:induction false} ScanEscaped(s: Scan, text: Bytes)
    requires s.quoted && !s.escaped
    ensures ScanAll(s, Escaped(text)) == s
  {
    if text != [] {
      ScanEscape(s, text[0]);
      ScanJoin(s, Escape(text[0]), Escaped(text[1..]));
      ScanEscaped(s, text[1..]);
    }
  }

  /** Whatever a string holds, brackets and escaped quotes included, the scanner comes out as it went in. */
  lemma ScanQuoted(s: Scan, text: Bytes)
    requires !s.quoted && !s.escaped
    ensures ScanAll(s, Quoted(text)) == s
  {
    var inside := Scanned(s, QUOTE);
    ScanEscaped(inside, text);
    ScanJoin(s, [QUOTE], Escaped(text) + [QUOTE]);
    ScanJoin(inside, Escaped(text), [QUOTE]);
    assert Quoted(text) == [QUOTE] + (Escaped(text) + [QUOTE]);
    ScanOne(s, QUOTE);
    ScanOne(inside, QUOTE);
  }

  lemma ScanOne(s: Scan, b: byte)
    ensures ScanAll(s, [b]) == Scanned(s, b)
  {
    assert [b][1..] == [];
  }

  function Reached(s: Scan, depth: nat): Scan {
    s.(peak := Max(s.peak, depth))
  }

  /** On printed JSON (section 7 of RFC 8259) the peak the scanner sees is the true nesting. */
  lemma {:induction false} ScanPrinted(s: Scan, v: Value, fl: Floats)
    requires !s.quoted && !s.escaped && s.depth <= s.peak && FloatsOk(fl)
    ensures ScanAll(s, Print(v, fl)) == Reached(s, s.depth + Nesting(v))
    decreases v, 0
  {
    hide B, ScanAll, Plain, Quoted;
    match v
    case Null => ScanWord(s, B("null"));
    case Bool(b) => ScanWord(s, B("true")); ScanWord(s, B("false"));
    case Number(n) =>
      if n.PosInt? { DecimalPlain(n.n); }
      if n.NegInt? { DecimalPlain(if n.m < 0 then -n.m else 0); }
      ScanPlain(s, PrintNum(n, fl));
    case String(text) => ScanQuoted(s, text);
    case Array(items) =>
      var inside := Scanned(s, OPEN_ARRAY);
      ScanItems(inside, items, fl);
      ScanWrapped(s, OPEN_ARRAY, PrintItems(items, fl), CLOSE_ARRAY, NestingItems(items));
    case Object(fields) =>
      var inside := Scanned(s, OPEN_OBJECT);
      ScanFields(inside, fields, fl);
      ScanWrapped(s, OPEN_OBJECT, PrintFields(fields, fl), CLOSE_OBJECT, NestingFields(fields));
  }

  lemma ScanWord(s: Scan, word: Bytes)
    requires !s.quoted && word in [B("null"), B("true"), B("false")]
    ensures ScanAll(s, word) == s
  {
    assert Plain(B("null")) && Plain(B("true")) && Plain(B("false"));
    ScanPlain(s, word);
  }

  lemma ScanWrapped(s: Scan, open: byte, body: Bytes, close: byte, depth: nat)
    requires !s.quoted && !s.escaped && s.depth <= s.peak
    requires (open == OPEN_ARRAY && close == CLOSE_ARRAY) || (open == OPEN_OBJECT && close == CLOSE_OBJECT)
    requires ScanAll(Scanned(s, open), body) == Reached(Scanned(s, open), s.depth + 1 + depth)
    ensures ScanAll(s, [open] + body + [close]) == Reached(s, s.depth + 1 + depth)
  {
    ScanOne(s, open);
    ScanJoin(s, [open], body);
    ScanJoin(s, [open] + body, [close]);
    ScanOne(ScanAll(s, [open] + body), close);
  }

  lemma {:induction false} ScanItems(s: Scan, items: seq<Value>, fl: Floats)
    requires !s.quoted && !s.escaped && s.depth <= s.peak && FloatsOk(fl)
    ensures ScanAll(s, PrintItems(items, fl)) == Reached(s, s.depth + NestingItems(items))
    decreases items, 0
  {
    if items != [] {
      var first, comma := Print(items[0], fl), if |items| > 1 then [COMMA] else [];
      ScanPrinted(s, items[0], fl);
      var t := ScanAll(s, first);
      ScanPlain(t, comma);
      ScanItems(t, items[1..], fl);
      ScanJoin(s, first, comma);
      ScanJoin(s, first + comma, PrintItems(items[1..], fl));
    }
  }

  lemma {:induction false} ScanFields(s: Scan, fields: seq<Field>, fl: Floats)
    requires !s.quoted && !s.escaped && s.depth <= s.peak && FloatsOk(fl)
    ensures ScanAll(s, PrintFields(fields, fl)) == Reached(s, s.depth + NestingFields(fields))
    decreases fields, 0
  {
    if fields != [] {
      var key, first := Quoted(fields[0].key) + [COLON], Print(fields[0].value, fl);
      var comma := if |fields| > 1 then [COMMA] else [];
      ScanQuoted(s, fields[0].key);
      ScanJoin(s, Quoted(fields[0].key), [COLON]);
      ScanPlain(s, [COLON]);
      ScanPrinted(s, fields[0].value, fl);
      var t := ScanAll(s, first);
      ScanPlain(t, comma);
      ScanFields(t, fields[1..], fl);
      ScanJoin(s, key, first);
      ScanJoin(s, key + first, comma);
      ScanJoin(s, key + first + comma, PrintFields(fields[1..], fl));
    }
  }

  lemma PrintedDepth(v: Value, fl: Floats, limit: nat, maxDepth: nat)
    requires FloatsOk(fl)
    ensures Shallow(Print(v, fl), limit, maxDepth) <==> |Print(v, fl)| <= limit && Nesting(v) <= maxDepth
  {
    ScanPrinted(FRESH, v, fl);
  }
}
