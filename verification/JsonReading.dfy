/** A reader of compact JSON, and that it undoes the printer: what `serde_json::from_slice` makes of what `to_vec` wrote. */
module JsonReading {
  import opened Common
  import opened Json

  datatype Parsed<+T> = Parsed(value: T, rest: Bytes)

  // ---------------------------------------------------------------- strings

  function HexValue(b: byte): Option<nat> {
    if 0x30 <= b <= 0x39 then Some(b - 0x30) else if 0x61 <= b <= 0x66 then Some(b - 0x61 + 10) else None
  }

  /** The byte behind a backslash that is not a code point. */
  function Unescape(b: byte): Option<byte> {
    if b == 0x22 || b == 0x5C || b == 0x2F then Some(b)
    else if b == 0x62 then Some(0x08)
    else if b == 0x66 then Some(0x0C)
    else if b == 0x6E then Some(0x0A)
    else if b == 0x72 then Some(0x0D)
    else if b == 0x74 then Some(0x09)
    else None
  }

  /** Text up to the closing quote. Code points are read where they are control characters. */
  function ParseText(s: Bytes): (r: Option<Parsed<Bytes>>)
    ensures r.Some? ==> |r.value.rest| < |s|
    decreases |s|
  {
    if s == [] || s[0] < 0x20 then None
    else if s[0] == 0x22 then Some(Parsed([], s[1..]))
    else if s[0] != 0x5C then
      var more :- ParseText(s[1..]);
      Some(Parsed([s[0]] + more.value, more.rest))
    else if |s| >= 6 && s[1] == 0x75 then
      var high :- HexValue(s[4]);
      var low :- HexValue(s[5]);
      var more :- ParseText(s[6..]);
      if s[2] != 0x30 || s[3] != 0x30 || 16 * high + low >= 0x80 then None
      else Some(Parsed([16 * high + low] + more.value, more.rest))
    else if |s| >= 2 then
      var b :- Unescape(s[1]);
      var more :- ParseText(s[2..]);
      Some(Parsed([b] + more.value, more.rest))
    else None
  }

  lemma EscapeBack(b: byte, rest: Bytes)
    requires ParseText(rest).Some?
    ensures ParseText(Escape(b) + rest) == Some(Parsed([b] + ParseText(rest).value.value, ParseText(rest).value.rest))
  {
    var s := Escape(b) + rest;
    assert s[|Escape(b)|..] == rest;
    if b < 0x20 && |Escape(b)| == 6 {
      assert s[4] == Hex(b / 16) && s[5] == Hex(b % 16);
      assert HexValue(Hex(b / 16)) == Some(b / 16) && HexValue(Hex(b % 16)) == Some(b % 16);
    }
  }

  lemma {:induction false} TextBack(t: Bytes, rest: Bytes)
    ensures ParseText(Escaped(t) + [QUOTE] + rest) == Some(Parsed(t, rest))
  {
    if t == [] {
      assert Escaped(t) + [QUOTE] + rest == [QUOTE] + rest;
    } else {
      hide Escape;
      TextBack(t[1..], rest);
      EscapeBack(t[0], Escaped(t[1..]) + [QUOTE] + rest);
      assert Escaped(t) + [QUOTE] + rest == Escape(t[0]) + (Escaped(t[1..]) + [QUOTE] + rest);
      assert [t[0]] + t[1..] == t;
    }
  }

  // ---------------------------------------------------------------- numbers

  predicate Digit(b: byte) {
    0x30 <= b <= 0x39
  }

  /** Digits, signs, the point and the exponent. */
  predicate NumberByte(b: byte) {
    Digit(b) || b in {0x2B, 0x2D, 0x2E, 0x45, 0x65}
  }

  predicate Digits(s: Bytes) {
    forall k :: 0 <= k < |s| ==> Digit(s[k])
  }

  predicate NumberText(s: Bytes) {
    forall k :: 0 <= k < |s| ==> NumberByte(s[k])
  }

  function NumberEnd(s: Bytes): (n: nat)
    ensures n <= |s|
  {
    if s == [] || !NumberByte(s[0]) then 0 else 1 + NumberEnd(s[1..])
  }

  function Value(s: Bytes): nat
    requires Digits(s)
  {
    if s == [] then 0 else 10 * Value(s[..|s| - 1]) + (s[|s| - 1] - 0x30)
  }

  /** A whole token: digits, a minus and digits, or a float text. */
  function ParseToken(s: Bytes, float: Bytes -> Option<nat>): Option<Num> {
    if s != [] && Digits(s) then Some(PosInt(Value(s)))
    else if |s| > 1 && s[0] == 0x2D && Digits(s[1..]) then Some(NegInt(-(Value(s[1..]) as int)))
    else
      var bits :- float(s);
      Some(Float(bits))
  }

  /** Float texts are number texts that are no integer, and the reading of floats undoes them. */
  ghost predicate FloatsRead(fl: Floats, float: Bytes -> Option<nat>) {
    forall bits: nat :: Finite(bits) ==>
      && NumberText(fl.text(bits)) && fl.text(bits) != [] && float(fl.text(bits)) == Some(bits)
      && !Digits(fl.text(bits)) && !(fl.text(bits)[0] == 0x2D && Digits(fl.text(bits)[1..]))
  }

  lemma {:induction false} DecimalValue(n: nat)
    ensures Digits(Decimal(n)) && Value(Decimal(n)) == n
  {
    if n >= 10 {
      DecimalValue(n / 10);
      assert Decimal(n)[..|Decimal(n)| - 1] == Decimal(n / 10);
    } else {
      assert [0x30 + n][..0] == [];
    }
  }

  lemma NumberBack(n: Num, fl: Floats, float: Bytes -> Option<nat>)
    requires NumOk(n) && FloatsRead(fl, float)
    ensures NumberText(PrintNum(n, fl)) && PrintNum(n, fl) != [] && ParseToken(PrintNum(n, fl), float) == Some(n)
  {
    hide Decimal, Value;
    match n
    case PosInt(x) => DecimalValue(x);
    case NegInt(m) =>
      DecimalValue(-m);
      var s := [0x2D] + Decimal(-m);
      assert s[1..] == Decimal(-m) && s[0] == 0x2D;
      assert forall k :: 0 < k < |s| ==> s[k] == Decimal(-m)[k - 1];
    case Float(_) =>
  }

  lemma {:induction false} NumberStops(s: Bytes, rest: Bytes)
    requires NumberText(s) && (rest == [] || !NumberByte(rest[0]))
    ensures NumberEnd(s + rest) == |s|
  {
    if s == [] {
      assert s + rest == rest;
    } else {
      assert (s + rest)[1..] == s[1..] + rest;
      NumberStops(s[1..], rest);
    }
  }

  // ---------------------------------------------------------------- values

  /** One value and what follows it. */
  function ParseValue(s: Bytes, float: Bytes -> Option<nat>): (r: Option<Parsed<Json.Value>>)
    ensures r.Some? ==> |r.value.rest| < |s|
    decreases |s|, 1
  {
    if s == [] then None
    else if s[0] == QUOTE then
      var t :- ParseText(s[1..]);
      Some(Parsed(String(t.value), t.rest))
    else if s[0] == OPEN_ARRAY then
      if |s| > 1 && s[1] == CLOSE_ARRAY then Some(Parsed(Array([]), s[2..]))
      else
        var items :- ParseItems(s[1..], float);
        Some(Parsed(Array(items.value), items.rest))
    else if s[0] == OPEN_OBJECT then
      if |s| > 1 && s[1] == CLOSE_OBJECT then Some(Parsed(Object([]), s[2..]))
      else
        var fields :- ParseFields(s[1..], float);
        Some(Parsed(Object(fields.value), fields.rest))
    else if B("null") <= s then Some(Parsed(Null, s[4..]))
    else if B("true") <= s then Some(Parsed(Bool(true), s[4..]))
    else if B("false") <= s then Some(Parsed(Bool(false), s[5..]))
    else
      var end := NumberEnd(s);
      if end == 0 then None
      else
        var n :- ParseToken(s[..end], float);
        Some(Parsed(Number(n), s[end..]))
  }

  /** Values up to the closing bracket. */
  function ParseItems(s: Bytes, float: Bytes -> Option<nat>): (r: Option<Parsed<seq<Json.Value>>>)
    ensures r.Some? ==> |r.value.rest| < |s|
    decreases |s|, 2
  {
    var v :- ParseValue(s, float);
    if v.rest == [] then None
    else if v.rest[0] == CLOSE_ARRAY then Some(Parsed([v.value], v.rest[1..]))
    else if v.rest[0] != COMMA then None
    else
      var more :- ParseItems(v.rest[1..], float);
      Some(Parsed([v.value] + more.value, more.rest))
  }

  /** Fields up to the closing brace. */
  function ParseFields(s: Bytes, float: Bytes -> Option<nat>): (r: Option<Parsed<seq<Field>>>)
    ensures r.Some? ==> |r.value.rest| < |s|
    decreases |s|, 2
  {
    if s == [] || s[0] != QUOTE then None
    else
      var key :- ParseText(s[1..]);
      if key.rest == [] || key.rest[0] != COLON then None
      else
        var v :- ParseValue(key.rest[1..], float);
        if v.rest == [] then None
        else if v.rest[0] == CLOSE_OBJECT then Some(Parsed([Field(key.value, v.value)], v.rest[1..]))
        else if v.rest[0] != COMMA then None
        else
          var more :- ParseFields(v.rest[1..], float);
          Some(Parsed([Field(key.value, v.value)] + more.value, more.rest))
  }

  // ---------------------------------------------------------------- reading what was printed

  /** Every number within its width. */
  ghost predicate NumbersOk(v: Json.Value)
    decreases v, 0
  {
    match v
    case Number(n) => NumOk(n)
    case Array(items) => NumbersOkItems(items)
    case Object(fields) => NumbersOkFields(fields)
    case _ => true
  }

  ghost predicate NumbersOkItems(items: seq<Json.Value>)
    decreases items, 0
  {
    items == [] || (NumbersOk(items[0]) && NumbersOkItems(items[1..]))
  }

  ghost predicate NumbersOkFields(fields: seq<Field>)
    decreases fields, 0
  {
    fields == [] || (NumbersOk(fields[0].value) && NumbersOkFields(fields[1..]))
  }

  predicate Ends(rest: Bytes) {
    rest == [] || !NumberByte(rest[0])
  }

  lemma NumberValueBack(n: Num, rest: Bytes, fl: Floats, float: Bytes -> Option<nat>)
    requires NumOk(n) && FloatsRead(fl, float) && Ends(rest)
    ensures ParseValue(PrintNum(n, fl) + rest, float) == Some(Parsed(Number(n), rest))
  {
    NumberBack(n, fl, float);
    var t := PrintNum(n, fl);
    NumberStops(t, rest);
    hide PrintNum, ParseToken, NumberEnd, ParseItems, ParseFields, ParseText, FloatsRead;
    var s := t + rest;
    assert s[..|t|] == t && s[|t|..] == rest && NumberByte(s[0]) && s[0] == t[0];
    assert B("null")[0] == 0x6E && B("true")[0] == 0x74 && B("false")[0] == 0x66;
  }

  lemma WordBack(v: Json.Value, rest: Bytes, fl: Floats, float: Bytes -> Option<nat>)
    requires v.Null? || v.Bool?
    ensures ParseValue(Print(v, fl) + rest, float) == Some(Parsed(v, rest))
  {
    hide ParseToken, NumberEnd, ParseItems, ParseFields, ParseText;
    var n, t, f := B("null"), B("true"), B("false");
    assert n == [0x6E, 0x75, 0x6C, 0x6C] && t == [0x74, 0x72, 0x75, 0x65] && f == [0x66, 0x61, 0x6C, 0x73, 0x65];
    var word := Print(v, fl);
    assert (word + rest)[|word|..] == rest && (word + rest)[0] == word[0];
  }

  /** The reader takes exactly a value's own text. */
  lemma {:induction false} ValueBack(v: Json.Value, rest: Bytes, fl: Floats, float: Bytes -> Option<nat>)
    requires NumbersOk(v) && FloatsRead(fl, float) && Ends(rest)
    ensures ParseValue(Print(v, fl) + rest, float) == Some(Parsed(v, rest))
    decreases v, 0
  {
    match v
    case Null => WordBack(v, rest, fl, float);
    case Bool(_) => WordBack(v, rest, fl, float);
    case Number(n) => NumberValueBack(n, rest, fl, float);
    case String(t) => StringValueBack(t, rest, fl, float);
    case Array(items) =>
      if items == [] {
        EmptyArrayBack(rest, fl, float);
      } else {
        ItemsBack(items, rest, fl, float);
        ArrayValueBack(items, rest, fl, float);
      }
    case Object(fields) =>
      if fields == [] {
        EmptyObjectBack(rest, fl, float);
      } else {
        FieldsBack(fields, rest, fl, float);
        ObjectValueBack(fields, rest, fl, float);
      }
  }

  lemma StringValueBack(t: Bytes, rest: Bytes, fl: Floats, float: Bytes -> Option<nat>)
    ensures ParseValue(Print(String(t), fl) + rest, float) == Some(Parsed(String(t), rest))
  {
    TextBack(t, rest);
    hide ParseText, Escaped;
    assert (Print(String(t), fl) + rest)[1..] == Escaped(t) + [QUOTE] + rest;
  }

  lemma EmptyArrayBack(rest: Bytes, fl: Floats, float: Bytes -> Option<nat>)
    ensures ParseValue(Print(Array([]), fl) + rest, float) == Some(Parsed(Array([]), rest))
  {
    var s := Print(Array([]), fl) + rest;
    assert s == [OPEN_ARRAY, CLOSE_ARRAY] + rest && s[2..] == rest;
  }

  lemma EmptyObjectBack(rest: Bytes, fl: Floats, float: Bytes -> Option<nat>)
    ensures ParseValue(Print(Object([]), fl) + rest, float) == Some(Parsed(Object([]), rest))
  {
    var s := Print(Object([]), fl) + rest;
    assert s == [OPEN_OBJECT, CLOSE_OBJECT] + rest && s[2..] == rest;
  }

  /** No value's text starts with a closing bracket. */
  lemma FirstByte(v: Json.Value, fl: Floats, float: Bytes -> Option<nat>)
    requires NumbersOk(v) && FloatsRead(fl, float)
    ensures Print(v, fl) != [] && Print(v, fl)[0] !in {CLOSE_ARRAY, CLOSE_OBJECT}
  {
    match v
    case Number(n) => NumberBack(n, fl, float); assert NumberByte(PrintNum(n, fl)[0]);
    case _ =>
  }

  lemma ArrayValueBack(items: seq<Json.Value>, rest: Bytes, fl: Floats, float: Bytes -> Option<nat>)
    requires items != [] && NumbersOk(items[0]) && FloatsRead(fl, float)
    requires ParseItems(PrintItems(items, fl) + [CLOSE_ARRAY] + rest, float) == Some(Parsed(items, rest))
    ensures ParseValue(Print(Array(items), fl) + rest, float) == Some(Parsed(Array(items), rest))
  {
    FirstByte(items[0], fl, float);
    var inner := PrintItems(items, fl) + [CLOSE_ARRAY] + rest;
    var s := Print(Array(items), fl) + rest;
    assert s[1..] == inner && s[0] == OPEN_ARRAY;
    assert inner[0] == Print(items[0], fl)[0];
    hide ParseItems, ParseFields, ParseText, ParseToken;
  }

  lemma ObjectValueBack(fields: seq<Field>, rest: Bytes, fl: Floats, float: Bytes -> Option<nat>)
    requires fields != []
    requires ParseFields(PrintFields(fields, fl) + [CLOSE_OBJECT] + rest, float) == Some(Parsed(fields, rest))
    ensures ParseValue(Print(Object(fields), fl) + rest, float) == Some(Parsed(Object(fields), rest))
  {
    hide ParseItems, ParseFields, ParseText, ParseToken, PrintFields, Escaped;
    FieldsText(fields, fl);
    var inner := PrintFields(fields, fl) + [CLOSE_OBJECT] + rest;
    var s := Print(Object(fields), fl) + rest;
    assert s[1..] == inner && s[0] == OPEN_OBJECT;
    assert inner[0] == QUOTE;
  }

  lemma ItemsText(items: seq<Json.Value>, fl: Floats)
    requires items != []
    ensures PrintItems(items, fl)
         == if |items| == 1 then Print(items[0], fl) else Print(items[0], fl) + [COMMA] + PrintItems(items[1..], fl)
  {
    hide Print;
  }

  lemma FieldsText(fields: seq<Field>, fl: Floats)
    requires fields != []
    ensures var f := [QUOTE] + Escaped(fields[0].key) + [QUOTE] + [COLON] + Print(fields[0].value, fl);
      PrintFields(fields, fl) == if |fields| == 1 then f else f + [COMMA] + PrintFields(fields[1..], fl)
  {
    hide Print, Escaped;
  }

  lemma {:induction false} ItemsBack(items: seq<Json.Value>, rest: Bytes, fl: Floats, float: Bytes -> Option<nat>)
    requires items != [] && NumbersOkItems(items) && FloatsRead(fl, float)
    ensures ParseItems(PrintItems(items, fl) + [CLOSE_ARRAY] + rest, float) == Some(Parsed(items, rest))
    decreases items, 0
  {
    hide ParseValue, Print, PrintItems, FloatsRead, NumbersOk;
    var v, more := items[0], items[1..];
    ItemsText(items, fl);
    var text := PrintItems(items, fl) + [CLOSE_ARRAY] + rest;
    if more == [] {
      assert text == Print(v, fl) + ([CLOSE_ARRAY] + rest);
      ValueBack(v, [CLOSE_ARRAY] + rest, fl, float);
      assert ([CLOSE_ARRAY] + rest)[1..] == rest && [v] == items;
    } else {
      var tail := PrintItems(more, fl) + [CLOSE_ARRAY] + rest;
      assert text == Print(v, fl) + ([COMMA] + tail);
      ValueBack(v, [COMMA] + tail, fl, float);
      assert ([COMMA] + tail)[1..] == tail && [v] + more == items;
      ItemsBack(more, rest, fl, float);
    }
  }

  lemma {:induction false} FieldsBack(fields: seq<Field>, rest: Bytes, fl: Floats, float: Bytes -> Option<nat>)
    requires fields != [] && NumbersOkFields(fields) && FloatsRead(fl, float)
    ensures ParseFields(PrintFields(fields, fl) + [CLOSE_OBJECT] + rest, float) == Some(Parsed(fields, rest))
    decreases fields, 0
  {
    hide ParseValue, Print, PrintFields, FloatsRead, NumbersOk, Escaped, ParseText;
    FieldsText(fields, fl);
    var f, more := fields[0], fields[1..];
    var tail := if more == [] then [CLOSE_OBJECT] + rest else [COMMA] + (PrintFields(more, fl) + [CLOSE_OBJECT] + rest);
    var text := PrintFields(fields, fl) + [CLOSE_OBJECT] + rest;
    var after := [COLON] + (Print(f.value, fl) + tail);
    assert text == [QUOTE] + (Escaped(f.key) + [QUOTE] + after);
    assert text[1..] == Escaped(f.key) + [QUOTE] + after;
    TextBack(f.key, after);
    assert after[1..] == Print(f.value, fl) + tail;
    ValueBack(f.value, tail, fl, float);
    assert tail[1..] == if more == [] then rest else PrintFields(more, fl) + [CLOSE_OBJECT] + rest;
    assert [Field(f.key, f.value)] + more == fields;
    if more != [] {
      FieldsBack(more, rest, fl, float);
    } else {
      assert [f] == fields;
    }
  }

  /** Reading undoes printing, for every value whose numbers are within their widths. */
  lemma PrintedReads(v: Json.Value, fl: Floats, float: Bytes -> Option<nat>)
    requires NumbersOk(v) && FloatsRead(fl, float)
    ensures ParseValue(Print(v, fl), float) == Some(Parsed(v, []))
  {
    assert Print(v, fl) + [] == Print(v, fl);
    ValueBack(v, [], fl, float);
  }

  /** Of a byte's several escapes the printer uses the shortest; what needs none stands for itself. */
  lemma EscapesAre(b: byte)
    ensures Escape(b) ==
      if b == 0x22 then B("\\\"") else if b == 0x5C then B("\\\\")
      else if b == 8 then B("\\b") else if b == 9 then B("\\t") else if b == 10 then B("\\n") else if b == 12 then B("\\f")
      else if b == 13 then B("\\r")
      else if b < 32 then B("\\u00") + [if b < 16 then 0x30 else 0x31, if b % 16 < 10 then 0x30 + b % 16 else 0x57 + b % 16]
      else [b]
  {
    assert B("\\u00") == [0x5C, 0x75, 0x30, 0x30];
  }
}
