/** What UTF-8 text is, said by encoding: the check of fabric/src/spindle/sources.rs accepts exactly the encodings of scalar values. */
module Unicode {
  import opened Common
  import opened Json
  import opened Observations

  /** A code point that is not half of a surrogate pair. */
  predicate IsScalar(c: nat) {
    c < 0xD800 || 0xE000 <= c < 0x11_0000
  }

  function EncodeScalar(c: nat): (r: Bytes)
    requires IsScalar(c)
    ensures r != []
  {
    if c < 0x80 then [c]
    else if c < 0x800 then [0xC0 + c / 64, 0x80 + c % 64]
    else if c < 0x1_0000 then [0xE0 + c / 4096, 0x80 + c / 64 % 64, 0x80 + c % 64]
    else [0xF0 + c / 26_2144, 0x80 + c / 4096 % 64, 0x80 + c / 64 % 64, 0x80 + c % 64]
  }

  function EncodeText(scalars: seq<nat>): Bytes
    requires forall k :: 0 <= k < |scalars| ==> IsScalar(scalars[k])
  {
    if scalars == [] then [] else EncodeScalar(scalars[0]) + EncodeText(scalars[1..])
  }

  lemma ScalarAccepted(c: nat, rest: Bytes)
    requires IsScalar(c)
    ensures Utf8(EncodeScalar(c) + rest) <==> Utf8(rest)
  {
    var e := EncodeScalar(c);
    var s := e + rest;
    assert s[|e|..] == rest;
    if 0x800 <= c < 0x1_0000 {
      ThreeBytes(c);
    } else if c >= 0x1_0000 {
      FourBytes(c);
    }
    assert forall k :: 0 <= k < |e| ==> s[k] == e[k];
  }

  lemma ThreeBytes(c: nat)
    requires IsScalar(c) && 0x800 <= c < 0x1_0000
    ensures var e := EncodeScalar(c);
      && 0xE0 <= e[0] <= 0xEF && Tail(e[1]) && Tail(e[2]) && (e[0] == 0xE0 ==> e[1] >= 0xA0) && (e[0] == 0xED ==> e[1] < 0xA0)
  {
    assert c / 64 == 64 * (c / 4096) + c / 64 % 64;
  }

  lemma FourBytes(c: nat)
    requires IsScalar(c) && c >= 0x1_0000
    ensures var e := EncodeScalar(c);
      && 0xF0 <= e[0] <= 0xF4 && Tail(e[1]) && Tail(e[2]) && Tail(e[3])
      && (e[0] == 0xF0 ==> e[1] >= 0x90) && (e[0] == 0xF4 ==> e[1] < 0x90)
  {
    assert c / 4096 == 64 * (c / 26_2144) + c / 4096 % 64;
  }

  /** What six bits at a time make. */
  function Joined(a: nat, b: nat, c: nat, d: nat): nat {
    ((a * 64 + b) * 64 + c) * 64 + d
  }

  lemma JoinedParts(a: nat, b: nat, c: nat, d: nat)
    requires b < 64 && c < 64 && d < 64
    ensures var n := Joined(a, b, c, d);
      && n % 64 == d && n / 64 == (a * 64 + b) * 64 + c && n / 64 % 64 == c && n / 4096 == a * 64 + b
      && n / 4096 % 64 == b && n / 26_2144 == a
  {
    var n := Joined(a, b, c, d);
    var m := (a * 64 + b) * 64 + c;
    assert n / 64 == m && n / 4096 == m / 64 && m / 64 == a * 64 + b && n / 26_2144 == (a * 64 + b) / 64;
  }

  /** The scalar in front of accepted text. */
  function FirstScalar(s: Bytes): (c: nat)
    requires s != [] && Utf8(s)
  {
    if s[0] < 0x80 then s[0]
    else if s[0] < 0xE0 then Joined(0, 0, s[0] - 0xC0, s[1] - 0x80)
    else if s[0] < 0xF0 then Joined(0, s[0] - 0xE0, s[1] - 0x80, s[2] - 0x80)
    else Joined(s[0] - 0xF0, s[1] - 0x80, s[2] - 0x80, s[3] - 0x80)
  }

  lemma FirstScalarIs(s: Bytes)
    requires s != [] && Utf8(s)
    ensures var c := FirstScalar(s);
      IsScalar(c) && |EncodeScalar(c)| <= |s| && EncodeScalar(c) == s[..|EncodeScalar(c)|] && Utf8(s[|EncodeScalar(c)|..])
  {
    var c := FirstScalar(s);
    if s[0] < 0x80 {
      assert EncodeScalar(c) == [s[0]] == s[..1];
    } else if s[0] < 0xE0 {
      JoinedParts(0, 0, s[0] - 0xC0, s[1] - 0x80);
      assert EncodeScalar(c) == [s[0], s[1]] == s[..2];
    } else if s[0] < 0xF0 {
      ThirdScalar(s);
    } else {
      FourthScalar(s);
    }
  }

  lemma ThirdScalar(s: Bytes)
    requires s != [] && Utf8(s) && 0xE0 <= s[0] < 0xF0
    ensures var c := FirstScalar(s);
      IsScalar(c) && |EncodeScalar(c)| == 3 <= |s| && EncodeScalar(c) == s[..3] && Utf8(s[3..])
  {
    var c := FirstScalar(s);
    JoinedParts(0, s[0] - 0xE0, s[1] - 0x80, s[2] - 0x80);
    assert EncodeScalar(c) == [s[0], s[1], s[2]] == s[..3];
  }

  lemma FourthScalar(s: Bytes)
    requires s != [] && Utf8(s) && 0xF0 <= s[0]
    ensures var c := FirstScalar(s);
      IsScalar(c) && |EncodeScalar(c)| == 4 <= |s| && EncodeScalar(c) == s[..4] && Utf8(s[4..])
  {
    var c := FirstScalar(s);
    JoinedParts(s[0] - 0xF0, s[1] - 0x80, s[2] - 0x80, s[3] - 0x80);
    assert EncodeScalar(c) == [s[0], s[1], s[2], s[3]] == s[..4];
  }

  /** The scalars of accepted text. */
  lemma {:induction false} Decodes(s: Bytes) returns (scalars: seq<nat>)
    requires Utf8(s)
    ensures (forall k :: 0 <= k < |scalars| ==> IsScalar(scalars[k])) && EncodeText(scalars) == s
    decreases |s|
  {
    scalars := [];
    if s != [] {
      var c := FirstScalar(s);
      FirstScalarIs(s);
      hide Utf8, EncodeScalar, FirstScalar;
      var e := EncodeScalar(c);
      var rest := Decodes(s[|e|..]);
      scalars := [c] + rest;
      assert scalars[1..] == rest && s == e + s[|e|..];
    }
  }

  lemma {:induction false} Encodes(scalars: seq<nat>)
    requires forall k :: 0 <= k < |scalars| ==> IsScalar(scalars[k])
    ensures Utf8(EncodeText(scalars))
  {
    if scalars != [] {
      Encodes(scalars[1..]);
      ScalarAccepted(scalars[0], EncodeText(scalars[1..]));
    }
  }

  ghost predicate IsText(s: Bytes) {
    exists scalars: seq<nat> :: (forall k :: 0 <= k < |scalars| ==> IsScalar(scalars[k])) && EncodeText(scalars) == s
  }

  /** Accepted is exactly what some sequence of scalar values is encoded as. */
  lemma Utf8Exactly(s: Bytes)
    ensures Utf8(s) <==> IsText(s)
  {
    if Utf8(s) {
      var scalars := Decodes(s);
    } else if IsText(s) {
      var scalars: seq<nat> :| (forall k :: 0 <= k < |scalars| ==> IsScalar(scalars[k])) && EncodeText(scalars) == s;
      Encodes(scalars);
    }
  }
}
