/**
The text of an observation, read back by the JSON reader and the serde mapping, is that observation: what the codecs ask of
the library that parses records can be met.
*/
module DocumentReading {
  import opened Common
  import opened Json
  import opened JsonReading
  import opened Observations
  import opened Codec
  import opened CodecFrames

  /** Two field lists a reader cannot tell apart. */
  ghost predicate Alike(a: seq<Field>, b: seq<Field>) {
    && (forall key :: Get(a, key) == Get(b, key))
    && (forall names :: Known(a, names) <==> Known(b, names))
  }

  lemma {:induction false} GetFirst(fields: seq<Field>, k: nat)
    requires Distinct(fields) && k < |fields|
    ensures Get(fields, fields[k].key) == Some(fields[k].value)
  {
    if k > 0 {
      GetFirst(fields[1..], k - 1);
    }
  }

  /** Sorting distinct fields changes nothing a reader sees. */
  lemma BuildAlike(fields: seq<Field>)
    requires Distinct(fields)
    ensures Alike(fields, Build(fields))
  {
    hide Get, Build;
    BuildHolds(fields);
    forall key
      ensures Get(fields, key) == Get(Build(fields), key)
    {
      if k :| 0 <= k < |fields| && fields[k].key == key {
        GetFirst(fields, k);
      } else {
        GetMember(fields, key);
        GetMember(Build(fields), key);
      }
    }
    forall names
      ensures Known(fields, names) <==> Known(Build(fields), names)
    {
      KnownSame(fields, Build(fields), names);
    }
  }

  lemma KnownSame(a: seq<Field>, b: seq<Field>, names: seq<Bytes>)
    requires forall f :: f in a <==> f in b
    ensures Known(a, names) <==> Known(b, names)
  {
    assert Known(a, names) <==> forall f :: f in a ==> f.key in names;
    assert Known(b, names) <==> forall f :: f in b ==> f.key in names;
  }

  lemma KindsAlike(a: seq<Field>, b: seq<Field>, fl: Floats)
    requires Alike(a, b)
    ensures FromRequest(a) == FromRequest(b) && FromAgent(a) == FromAgent(b) && FromTool(a) == FromTool(b)
    ensures FromLog(a) == FromLog(b) && FromJsonLog(a) == FromJsonLog(b) && FromEvent(a) == FromEvent(b)
    ensures FromMetric(a, fl) == FromMetric(b, fl) && FromGap(a) == FromGap(b)
  {
    hide Get, B, Known, AsOutcome, AsLevel, AsMetricType;
  }

  lemma DataAlike(a: seq<Field>, b: seq<Field>, fl: Floats)
    requires Alike(a, b)
    ensures FromData(Object(a), fl) == FromData(Object(b), fl)
  {
    hide Get, B, FromRequest, FromAgent, FromTool, FromLog, FromJsonLog, FromEvent, FromMetric, FromGap, Known;
    KindsAlike(a, b, fl);
  }

  lemma IdentityAlike(a: seq<Field>, b: seq<Field>)
    requires Alike(a, b)
    ensures FromIdentity(Object(a)) == FromIdentity(Object(b))
  {
    hide Get, B, Known;
  }

  /** The fields in declaration order read as the observation. */
  lemma DocumentBack(o: Observation, fl: Floats)
    requires Typed(o) && (o.data.Metric? ==> Finite(o.data.bits))
    ensures FromValue(Document(o), fl) == Some(o)
  {
    hide B, Build, Get, FromValue, FromData, FromIdentity, Utf8, DataOk, DataFields, IdentityFields;
    var i, d := IdentityFields(o.identity), DataFields(o.data);
    IdentityParts(o.identity);
    BuildAlike(i);
    IdentityAlike(i, Build(i));
    IdentityRoundTrip(o.identity);
    DataDistinct(o.data);
    BuildAlike(d);
    DataAlike(d, Build(d), fl);
    DataRoundTrip(o.data, fl);
    EnvelopeBack(o, Object(i), Object(d), fl);
  }

  lemma IdentityParts(i: Identity)
    ensures Distinct(IdentityFields(i))
  {
    NamesDiffer();
    hide B;
  }

  /** An envelope whose parts read as the parts of an observation. */
  lemma EnvelopeBack(o: Observation, i: Value, d: Value, fl: Floats)
    requires Typed(o) && FromIdentity(i) == Some(o.identity) && FromData(d, fl) == Some(o.data)
    ensures FromValue(Object(EnvelopeFields(o, i, d)), fl) == Some(o)
  {
    hide FromData, FromIdentity, Utf8, DataOk;
    NamesDiffer();
    hide B;
    var fs := EnvelopeFields(o, i, d);
    GetFirst(fs, 0);
    GetFirst(fs, 1);
    GetFirst(fs, 2);
    GetFirst(fs, 3);
    GetFirst(fs, 4);
    GetFirst(fs, 5);
    hide Get, EnvelopeFields;
  }

  // ---------------------------------------------------------------- numbers of a document

  lemma {:induction false} TypedNumbers(v: Value)
    requires ValueOk(v)
    ensures NumbersOk(v)
    decreases v, 0
  {
    hide Utf8, Sorted;
    match v
    case Array(items) => TypedItems(items);
    case Object(fields) => TypedFields(fields);
    case _ =>
  }

  lemma {:induction false} TypedItems(items: seq<Value>)
    requires ItemsOk(items)
    ensures NumbersOkItems(items)
    decreases items, 0
  {
    if items != [] {
      TypedNumbers(items[0]);
      TypedItems(items[1..]);
    }
  }

  lemma {:induction false} TypedFields(fields: seq<Field>)
    requires EachOk(fields)
    ensures NumbersOkFields(fields)
    decreases fields, 0
  {
    hide Utf8;
    if fields != [] {
      TypedNumbers(fields[0].value);
      TypedFields(fields[1..]);
    }
  }

  lemma {:induction false} EachNumbers(fields: seq<Field>)
    requires forall k :: 0 <= k < |fields| ==> NumbersOk(fields[k].value)
    ensures NumbersOkFields(fields)
  {
    hide NumbersOk;
    if fields != [] {
      EachNumbers(fields[1..]);
    }
  }

  lemma DataNumbers(d: Data)
    requires DataOk(d)
    ensures NumbersOk(Object(DataFields(d)))
  {
    hide B, Utf8, Sorted;
    if d.JsonLog? {
      TypedFields(d.entries);
    }
    EachNumbers(DataFields(d));
  }

  lemma DocumentNumbers(o: Observation)
    requires Typed(o)
    ensures NumbersOk(Document(o))
  {
    hide B, Utf8, DataFields, DataOk;
    DataNumbers(o.data);
    EachNumbers(IdentityFields(o.identity));
    EachNumbers(EnvelopeFields(o, Object(IdentityFields(o.identity)), Object(DataFields(o.data))));
  }

  // ---------------------------------------------------------------- the whole text

  /** `serde_json::from_slice::<Observation>`, on compact text. */
  function ParseObservation(text: Bytes, fl: Floats, float: Bytes -> Option<nat>): Option<Observation> {
    var v :- ParseValue(text, float);
    if v.rest != [] then None else FromValue(v.value, fl)
  }

  /** Parsing undoes the printing of every observation, for any float texts that read back. */
  lemma TextReads(o: Observation, fl: Floats, float: Bytes -> Option<nat>)
    requires Typed(o) && (o.data.Metric? ==> Finite(o.data.bits)) && FloatsRead(fl, float)
    ensures ParseObservation(Text(o, fl), fl, float) == Some(o)
  {
    hide FloatsRead, Document, Print, ParseValue, FromValue, Typed, NumbersOk;
    DocumentNumbers(o);
    PrintedReads(Document(o), fl, float);
    DocumentBack(o, fl);
  }

  /** A library that reads with these readers. */
  function Readers(fl: Floats, float: Bytes -> Option<nat>): Library {
    Library(fl, text => ParseObservation(text, fl, float), text => ParseEntries(text, float))
  }

  function ParseEntries(text: Bytes, float: Bytes -> Option<nat>): Option<seq<Field>> {
    var v :- ParseValue(text, float);
    if v.rest == [] && v.value.Object? then Some(v.value.fields) else None
  }

  lemma EntriesRead(fields: seq<Field>, fl: Floats, float: Bytes -> Option<nat>)
    requires NumbersOk(Object(fields)) && FloatsRead(fl, float)
    ensures ParseEntries(Print(Object(fields), fl), float) == Some(fields)
  {
    hide Print, ParseValue, NumbersOk, FloatsRead;
    PrintedReads(Object(fields), fl, float);
  }

  /**
  With these readers a batch is canonical exactly when it has one to 32 valid records, each of a text that passes the scanner,
  and all of a text within the batch limit: decoding what was printed asks nothing more.
  */
  lemma CanonicalMeans(records: seq<Observation>, fl: Floats, float: Bytes -> Option<nat>)
    requires FloatsRead(fl, float) && forall i :: 0 <= i < |records| ==> Typed(records[i])
    ensures Canonical(records, Readers(fl, float)) <==>
      && 1 <= |records| <= 32 && |BatchText(records, fl)| <= 262144
      && forall i :: 0 <= i < |records| ==> Valid(records[i]) && Shallow(Text(records[i], fl), 65536, 16)
  {
    hide FloatsRead, Typed, Text, BatchText, ParseObservation, Shallow;
    forall i | 0 <= i < |records| && Valid(records[i])
      ensures ParseObservation(Text(records[i], fl), fl, float) == Some(records[i])
    {
      ValidFinite(records[i]);
      TextReads(records[i], fl, float);
    }
    hide Valid;
  }

  lemma ValidFinite(o: Observation)
    requires Valid(o)
    ensures o.data.Metric? ==> Finite(o.data.bits)
  {
    hide ValidEntries, TextOk;
  }

  // ---------------------------------------------------------------- JSON frames

  function JsonFrame(records: seq<Observation>, fl: Floats): Bytes {
    Magic() + [0] + BatchText(records, fl)
  }

  /** `decode` of a JSON frame: an array of at most 32 records and nothing after it. */
  function DecodeJson(bytes: Bytes, fl: Floats, float: Bytes -> Option<nat>): Option<seq<Observation>> {
    var head := Magic() + [0];
    if |bytes| > MAX_FRAME_BYTES || |bytes| < |head| || bytes[..|head|] != head || |bytes| - |head| > MAX_INPUT then None
    else
      var v :- ParseValue(bytes[|head|..], float);
      if v.rest != [] || !v.value.Array? || |v.value.items| > 32 then None
      else
        var records :- FromValues(v.value.items, fl);
        if Canonical(records, Readers(fl, float)) then Some(records) else None
  }

  lemma {:induction false} DocumentsBack(records: seq<Observation>, fl: Floats)
    requires forall i :: 0 <= i < |records| ==> Typed(records[i]) && (records[i].data.Metric? ==> Finite(records[i].data.bits))
    ensures |Documents(records)| == |records| && FromValues(Documents(records), fl) == Some(records)
    ensures NumbersOkItems(Documents(records))
  {
    hide Typed, Document, FromValue, NumbersOk;
    if records != [] {
      DocumentBack(records[0], fl);
      DocumentNumbers(records[0]);
      DocumentsBack(records[1..], fl);
      assert Documents(records)[1..] == Documents(records[1..]) && Documents(records)[0] == Document(records[0]);
      assert [records[0]] + records[1..] == records;
    }
  }

  /** A JSON frame gives back the very records it was made of. */
  lemma JsonRoundTrip(records: seq<Observation>, fl: Floats, float: Bytes -> Option<nat>)
    requires FloatsRead(fl, float) && Canonical(records, Readers(fl, float))
    requires forall i :: 0 <= i < |records| ==> Typed(records[i])
    ensures |JsonFrame(records, fl)| <= MAX_FRAME_BYTES && DecodeJson(JsonFrame(records, fl), fl, float) == Some(records)
  {
    hide FloatsRead, Typed, Document, FromValue, FromValues, Print, ParseValue, Decodable, Magic, Valid, Documents, PrintItems;
    forall i | 0 <= i < |records|
      ensures records[i].data.Metric? ==> Finite(records[i].data.bits)
    {
      ValidFinite(records[i]);
    }
    DocumentsBack(records, fl);
    PrintedReads(Array(Documents(records)), fl, float);
    var head := Magic() + [0];
    var frame := JsonFrame(records, fl);
    assert frame[..|head|] == head && frame[|head|..] == BatchText(records, fl);
  }
}
