/** The direct codec's loops over its counters, buffers and shrinking slice. */
module DirectMachines {
  import opened Common
  import opened Json
  import opened Observations
  import opened Binary
  import opened Codec
  import opened CodecFrames
  import opened Direct

  /** However the serializer cuts each text into writes, the streamed verdict is the one on whole texts. */
  method Validate(records: seq<Observation>, fl: Floats, cut: Bytes -> seq<Bytes>) returns (ok: bool)
    requires forall text :: Concat(cut(text)) == text
    ensures ok == Validated(records, fl)
  {
    hide Valid, Shallow, BatchText, Text;
    if |records| == 0 || |records| > 32 {
      return false;
    }
    for i := 0 to |records|
      invariant forall k :: 0 <= k < i ==> RecordFits(records[k], fl)
    {
      if !Valid(records[i]) {
        return false;
      }
      var fits := Stream(cut(Text(records[i], fl)), MAX_FRAME, MAX_DEPTH);
      if !fits {
        assert !RecordFits(records[i], fl);
        return false;
      }
    }
    ok := Stream(cut(BatchText(records, fl)), MAX_INPUT, MAX_DEPTH + 1);
  }

  method Encode(records: seq<Observation>, fl: Floats, cut: Bytes -> seq<Bytes>) returns (r: Option<Bytes>)
    requires forall text :: Concat(cut(text)) == text
    ensures r.Some? <==> Validated(records, fl) && |EncDirect(records, fl)| <= MAX_FRAME_BYTES
    ensures r.Some? ==> r.value == EncDirect(records, fl)
  {
    hide Validated, ToRow, Le32, Concat, EncRow;
    var ok := Validate(records, fl, cut);
    if !ok {
      return None;
    }
    var out := Le32(|records|);
    assert records[0..] == records;
    for i := 0 to |records|
      invariant out + EncRecords(records[i..], fl) == EncDirect(records, fl)
    {
      assert records[i..][1..] == records[i + 1..];
      var row := ToRow(records[i], fl);
      ghost var before := out;
      out := EncodeRow(out, row);
      assert before + (EncRow(row) + EncRecords(records[i + 1..], fl)) == out + EncRecords(records[i + 1..], fl);
    }
    assert out + [] == out;
    if |out| > MAX_FRAME_BYTES {
      return None;
    }
    return Some(out);
  }

  method EncodeRow(start: Bytes, row: Row) returns (out: Bytes)
    ensures out == start + EncRow(row)
  {
    hide Le32, Le, EncOptional;
    out := start;
    assert row.numbers[0..] == row.numbers && row.strings[0..] == row.strings;
    for k := 0 to |row.numbers|
      invariant out + EncNumbers(row.numbers[k..]) == start + EncNumbers(row.numbers)
    {
      assert row.numbers[k..][1..] == row.numbers[k + 1..];
      ghost var before, this' := out, Le(row.numbers[k], 8);
      out := out + Le(row.numbers[k], 8);
      assert before + (this' + EncNumbers(row.numbers[k + 1..])) == out + EncNumbers(row.numbers[k + 1..]);
    }
    assert out + [] == out;
    for k := 0 to |row.strings|
      invariant out + EncOptionals(row.strings[k..]) == start + EncNumbers(row.numbers) + EncOptionals(row.strings)
    {
      assert row.strings[k..][1..] == row.strings[k + 1..];
      ghost var before, this' := out, EncOptional(row.strings[k]);
      out := EncodeOptional(out, row.strings[k]);
      assert before + (this' + EncOptionals(row.strings[k + 1..])) == out + EncOptionals(row.strings[k + 1..]);
    }
    assert out + [] == out;
    assert start + EncNumbers(row.numbers) + EncOptionals(row.strings) == start + EncRow(row);
  }

  method EncodeOptional(start: Bytes, s: Option<Bytes>) returns (out: Bytes)
    ensures out == start + EncOptional(s)
  {
    match s
    case Some(x) =>
      out := start + Le32(|x|);
      out := out + x;
    case None => out := start + Le32(NO_STRING);
  }

  /** `decode` over the shrinking slice, with its running total of expanded bytes. */
  method Decode(bytes: Bytes, lib: Library, cut: Bytes -> seq<Bytes>) returns (r: Option<seq<Observation>>)
    requires forall text :: Concat(cut(text)) == text
    ensures r == DecodeDirect(bytes, lib)
  {
    hide Validated, TakeInt, FromRow, ReadRow, Concat;
    if |bytes| > MAX_FRAME_BYTES {
      return None;
    }
    var count :- TakeInt(Cursor(bytes, 0, 0), 4);
    if count.value == 0 || count.value > 32 {
      return None;
    }
    var b, expanded := count.after.rest, count.after.expanded;
    var out := [];
    assert count.after.nodes == 0 by {
      TakeKeepsNodes(Cursor(bytes, 0, 0), 4);
    }
    for i := 0 to count.value
      invariant ReadRecords(count.after, count.value, lib, []) == ReadRecords(Cursor(b, expanded, 0), count.value - i, lib, out)
    {
      var row, b', expanded' := DecodeRow(b, expanded);
      var row' :- row;
      var o :- FromRow(row', lib);
      b, expanded := b', expanded';
      out := out + [o];
    }
    if b != [] {
      return None;
    }
    var ok := Validate(out, lib.fl, cut);
    return if ok then Some(out) else None;
  }

  lemma TakeKeepsNodes(c: Cursor, width: nat)
    ensures TakeInt(c, width).Some? ==> TakeInt(c, width).value.after.nodes == c.nodes
  {
    hide UnLe;
  }

  method DecodeRow(start: Bytes, spent: nat) returns (row: Option<Row>, b: Bytes, expanded: nat)
    ensures match ReadRow(Cursor(start, spent, 0))
            case None => row == None
            case Some(x) => row == Some(x.value) && x.after == Cursor(b, expanded, 0)
    ensures row.Some? ==> |row.value.strings| == 7 && |row.value.numbers| == 7
  {
    hide ReadNumbers, ReadOptionals;
    var numbers, strings;
    numbers, b := DecodeNumbers(start, spent);
    expanded := spent;
    if numbers == None {
      return None, b, expanded;
    }
    strings, b, expanded := DecodeStrings(b, spent);
    if strings == None {
      return None, b, expanded;
    }
    return Some(Row(strings.value, numbers.value)), b, expanded;
  }

  method DecodeNumbers(start: Bytes, spent: nat) returns (numbers: Option<seq<nat>>, b: Bytes)
    ensures match ReadNumbers(Cursor(start, spent, 0), 7, [])
            case None => numbers == None
            case Some(x) => numbers == Some(x.value) && x.after == Cursor(b, spent, 0)
  {
    hide UnLe;
    b := start;
    var out: seq<nat> := [];
    for k := 0 to 7
      invariant ReadNumbers(Cursor(start, spent, 0), 7, []) == ReadNumbers(Cursor(b, spent, 0), 7 - k, out)
    {
      if |b| < 8 {
        return None, b;
      }
      out := out + [UnLe(b[..8])];
      b := b[8..];
    }
    return Some(out), b;
  }

  method DecodeStrings(start: Bytes, spent: nat) returns (strings: Option<seq<Option<Bytes>>>, b: Bytes, expanded: nat)
    ensures match ReadOptionals(Cursor(start, spent, 0), 7, [])
            case None => strings == None
            case Some(x) => strings == Some(x.value) && x.after == Cursor(b, expanded, 0)
  {
    hide ReadOptional;
    b, expanded := start, spent;
    var out: seq<Option<Bytes>> := [];
    for k := 0 to 7
      invariant ReadOptionals(Cursor(start, spent, 0), 7, []) == ReadOptionals(Cursor(b, expanded, 0), 7 - k, out)
    {
      var s;
      s, b, expanded := DecodeString(b, expanded);
      if s == None {
        return None, b, expanded;
      }
      out := out + [s.value];
    }
    return Some(out), b, expanded;
  }

  method DecodeString(start: Bytes, spent: nat) returns (s: Option<Option<Bytes>>, b: Bytes, expanded: nat)
    ensures match ReadOptional(Cursor(start, spent, 0))
            case None => s == None
            case Some(x) => s == Some(x.value) && x.after == Cursor(b, expanded, 0)
  {
    hide UnLe, Utf8;
    b, expanded := start, spent;
    if |b| < 4 {
      return None, b, expanded;
    }
    var n := UnLe(b[..4]);
    b := b[4..];
    if n == NO_STRING {
      return Some(None), b, expanded;
    }
    expanded := expanded + n;
    if n > 65536 || expanded > MAX_INPUT || n > |b| || !Utf8(b[..n]) {
      return None, b, expanded;
    }
    s := Some(Some(b[..n]));
    b := b[n..];
  }
}
