/** The byte string a device signs in its Hello. Two different Hellos must never share it; a decoder that
    undoes the encoder proves that. Text fields are their UTF-8 bytes. */
module HelloPayload {
  import opened Numbered

  type byte = x: int | 0 <= x < 256

  datatype Hello = Hello(deviceId: seq<byte>, version: seq<byte>, hostname: seq<byte>, os: seq<byte>,
                         capabilities: seq<seq<byte>>, lastAck: nat, signedAtMs: nat, nonce: seq<byte>)

  const U32: nat := 0x1_0000_0000
  const U64: nat := 0x1_0000_0000_0000_0000

  /** The bytes of "ahand-hub\0hello-auth\0". */
  const DOMAIN: seq<byte> := [97, 104, 97, 110, 100, 45, 104, 117, 98, 0,
                              104, 101, 108, 108, 111, 45, 97, 117, 116, 104, 0]

  /** `n` in `k` little-endian bytes, wrapping like the fixed-width integers of the source. */
  function Le(n: nat, k: nat): seq<byte> {
    if k == 0 then [] else [n % 256] + Le(n / 256, k - 1)
  }

  function FromLe(bs: seq<byte>): nat {
    if bs == [] then 0 else bs[0] + 256 * FromLe(bs[1..])
  }

  function Pow256(k: nat): nat { if k == 0 then 1 else 256 * Pow256(k - 1) }

  function Field(v: seq<byte>): seq<byte> { Le(|v|, 4) + v }

  function Fields(vs: seq<seq<byte>>): seq<byte> {
    if vs == [] then [] else Field(vs[0]) + Fields(vs[1..])
  }

  function Heading(h: Hello): seq<seq<byte>> { [h.deviceId, h.version, h.hostname, h.os] }

  function Encode(h: Hello): seq<byte> {
    DOMAIN + (Fields(Heading(h)) + EncodeTail(h))
  }

  function EncodeTail(h: Hello): seq<byte> {
    Le(|h.capabilities|, 4) + (Fields(h.capabilities)
    + (Le(h.lastAck, 8) + (Le(h.signedAtMs, 8) + Field(h.nonce))))
  }

  /** What the encoder accepts: lengths that fit 32 bits (it panics otherwise), 64-bit integers. */
  predicate Encodable(h: Hello) {
    && |h.deviceId| < U32 && |h.version| < U32 && |h.hostname| < U32 && |h.os| < U32
    && |h.capabilities| < U32 && (forall i | 0 <= i < |h.capabilities| :: |h.capabilities[i]| < U32)
    && h.lastAck < U64 && h.signedAtMs < U64 && |h.nonce| < U32
  }

  /** The signed bytes begin with the domain in ASCII, so they are never taken for another kind of message. */
  lemma PayloadBeginsWithDomain(h: Hello)
    ensures var text := "ahand-hub\0hello-auth\0";
            |Encode(h)| >= |text| && forall i | 0 <= i < |text| :: Encode(h)[i] == text[i] as int
  {
    var text := "ahand-hub\0hello-auth\0";
    assert |text| == |DOMAIN| == 21;
    forall i | 0 <= i < |text| ensures DOMAIN[i] == text[i] as int {}
  }

  // ---- The encoder as the source runs it: one buffer, extended field by field ----

  method PushField(payload: seq<byte>, value: seq<byte>) returns (r: Option<seq<byte>>)
    ensures r == if |value| < U32 then Some(payload + Field(value)) else None
  {
    if |value| >= U32 { return None; }
    var grown := payload + Le(|value|, 4) + value;
    assert grown == payload + Field(value);
    r := Some(grown);
  }

  method PushFields(payload: seq<byte>, values: seq<seq<byte>>) returns (r: Option<seq<byte>>)
    ensures r == if forall i | 0 <= i < |values| :: |values[i]| < U32 then Some(payload + Fields(values)) else None
  {
    var buffer := payload;
    for i := 0 to |values|
      invariant forall j | 0 <= j < i :: |values[j]| < U32
      invariant buffer + Fields(values[i..]) == payload + Fields(values)
    {
      assert values[i..][1..] == values[i + 1..];
      var grown := PushField(buffer, values[i]);
      if grown.None? { return None; }
      assert grown.value + Fields(values[i + 1..]) == buffer + Fields(values[i..]);
      buffer := grown.value;
    }
    assert buffer == payload + Fields(values);
    r := Some(buffer);
  }

  lemma {:induction false} FieldsSnoc(vs: seq<seq<byte>>, v: seq<byte>)
    ensures Fields(vs + [v]) == Fields(vs) + Field(v)
  {
    if vs == [] {
      assert vs + [v] == [v] && [v][1..] == [];
    } else {
      assert (vs + [v])[0] == vs[0] && (vs + [v])[1..] == vs[1..] + [v];
      FieldsSnoc(vs[1..], v);
    }
  }

  lemma PushAppended(p: seq<byte>, vs: seq<seq<byte>>, v: seq<byte>)
    ensures p + Fields(vs) + Field(v) == p + Fields(vs + [v])
  {
    FieldsSnoc(vs, v);
  }

  lemma HeadingAppended(p: seq<byte>, h: Hello)
    ensures p + Field(h.deviceId) + Field(h.version) + Field(h.hostname) + Field(h.os) == p + Fields(Heading(h))
  {
    PushAppended(p, [], h.deviceId);
    assert p + Fields([]) == p && [] + [h.deviceId] == [h.deviceId];
    PushAppended(p, [h.deviceId], h.version);
    assert [h.deviceId] + [h.version] == [h.deviceId, h.version];
    PushAppended(p, [h.deviceId, h.version], h.hostname);
    assert [h.deviceId, h.version] + [h.hostname] == [h.deviceId, h.version, h.hostname];
    PushAppended(p, [h.deviceId, h.version, h.hostname], h.os);
    assert [h.deviceId, h.version, h.hostname] + [h.os] == Heading(h);
  }

  lemma Assoc(a: seq<byte>, b: seq<byte>, c: seq<byte>)
    ensures (a + b) + c == a + (b + c)
  {
  }

  lemma Nest(p: seq<byte>, a: seq<byte>, b: seq<byte>, c: seq<byte>, d: seq<byte>, e: seq<byte>)
    ensures p + a + b + c + d + e == p + (a + (b + (c + (d + e))))
  {
    Assoc(p + a + b + c, d, e);
    Assoc(p + a + b, c, d + e);
    Assoc(p + a, b, c + (d + e));
    Assoc(p, a, b + (c + (d + e)));
  }

  lemma TailAppended(p: seq<byte>, h: Hello)
    ensures p + Le(|h.capabilities|, 4) + Fields(h.capabilities) + Le(h.lastAck, 8) + Le(h.signedAtMs, 8)
            + Field(h.nonce) == p + EncodeTail(h)
  {
    Nest(p, Le(|h.capabilities|, 4), Fields(h.capabilities), Le(h.lastAck, 8), Le(h.signedAtMs, 8), Field(h.nonce));
  }

  method PushHeading(payload: seq<byte>, h: Hello) returns (r: Option<seq<byte>>)
    ensures r == if |h.deviceId| < U32 && |h.version| < U32 && |h.hostname| < U32 && |h.os| < U32
                 then Some(payload + Fields(Heading(h))) else None
  {
    HeadingAppended(payload, h);
    r := PushField(payload, h.deviceId);
    if r.None? { return; }
    r := PushField(r.value, h.version);
    if r.None? { return; }
    r := PushField(r.value, h.hostname);
    if r.None? { return; }
    r := PushField(r.value, h.os);
  }

  method PushTail(payload: seq<byte>, h: Hello) returns (r: Option<seq<byte>>)
    ensures r == if |h.capabilities| < U32 && (forall i | 0 <= i < |h.capabilities| :: |h.capabilities[i]| < U32)
                    && |h.nonce| < U32
                 then Some(payload + EncodeTail(h)) else None
  {
    if |h.capabilities| >= U32 { return None; }
    r := PushFields(payload + Le(|h.capabilities|, 4), h.capabilities);
    if r.None? { return; }
    TailAppended(payload, h);
    r := PushField(r.value + Le(h.lastAck, 8) + Le(h.signedAtMs, 8), h.nonce);
  }

  method BuildHelloAuthPayload(h: Hello) returns (r: Option<seq<byte>>)
    requires h.lastAck < U64 && h.signedAtMs < U64
    ensures r == if Encodable(h) then Some(Encode(h)) else None
  {
    r := PushHeading(DOMAIN, h);
    if r.None? { return; }
    assert forall t: seq<byte> :: DOMAIN + Fields(Heading(h)) + t == DOMAIN + (Fields(Heading(h)) + t);
    r := PushTail(r.value, h);
  }

  // ---- The decoder ----

  datatype Parsed<+T> = Parsed(value: T, rest: seq<byte>)

  function TakeLe(bs: seq<byte>, k: nat): Option<Parsed<nat>> {
    if |bs| < k then None else Some(Parsed(FromLe(bs[..k]), bs[k..]))
  }

  function TakeField(bs: seq<byte>): Option<Parsed<seq<byte>>> {
    if |bs| < 4 || |bs| - 4 < FromLe(bs[..4]) then None
    else Some(Parsed(bs[4..][..FromLe(bs[..4])], bs[4..][FromLe(bs[..4])..]))
  }

  function TakeFields(bs: seq<byte>, n: nat): Option<Parsed<seq<seq<byte>>>> {
    if n == 0 then Some(Parsed([], bs))
    else match TakeField(bs)
      case None => None
      case Some(v) =>
        match TakeFields(v.rest, n - 1)
        case None => None
        case Some(vs) => Some(Parsed([v.value] + vs.value, vs.rest))
  }

  function Tail(bs: seq<byte>, d: seq<byte>, v: seq<byte>, h: seq<byte>, o: seq<byte>): Option<Hello> {
    match TakeLe(bs, 4)
    case None => None
    case Some(n) =>
      match TakeFields(n.rest, n.value)
      case None => None
      case Some(cs) =>
        match TakeLe(cs.rest, 8)
        case None => None
        case Some(ack) =>
          match TakeLe(ack.rest, 8)
          case None => None
          case Some(at) =>
            match TakeField(at.rest)
            case None => None
            case Some(nonce) =>
              if nonce.rest == [] then Some(Hello(d, v, h, o, cs.value, ack.value, at.value, nonce.value)) else None
  }

  function Decode(bs: seq<byte>): Option<Hello> {
    if |bs| < |DOMAIN| || bs[..|DOMAIN|] != DOMAIN then None
    else match TakeFields(bs[|DOMAIN|..], 4)
      case None => None
      case Some(f) => if |f.value| == 4 then Tail(f.rest, f.value[0], f.value[1], f.value[2], f.value[3]) else None
  }

  // ---- Decoding undoes encoding ----

  lemma {:induction false} LeRoundTrip(n: nat, k: nat)
    requires n < Pow256(k)
    ensures |Le(n, k)| == k && FromLe(Le(n, k)) == n
  {
    if k == 0 {
    } else {
      LeRoundTrip(n / 256, k - 1);
      assert Le(n, k)[1..] == Le(n / 256, k - 1);
    }
  }

  lemma {:induction false} LeInverse(bs: seq<byte>)
    ensures FromLe(bs) < Pow256(|bs|) && Le(FromLe(bs), |bs|) == bs
  {
    if bs == [] {
    } else {
      LeInverse(bs[1..]);
      assert FromLe(bs) % 256 == bs[0] && FromLe(bs) / 256 == FromLe(bs[1..]);
    }
  }

  lemma TakeLeEncoded(n: nat, k: nat, rest: seq<byte>)
    requires n < Pow256(k)
    ensures TakeLe(Le(n, k) + rest, k) == Some(Parsed(n, rest))
  {
    LeRoundTrip(n, k);
    assert (Le(n, k) + rest)[..k] == Le(n, k) && (Le(n, k) + rest)[k..] == rest;
  }

  lemma TakeFieldEncoded(v: seq<byte>, rest: seq<byte>)
    requires |v| < U32
    ensures TakeField(Field(v) + rest) == Some(Parsed(v, rest))
  {
    LeRoundTrip(|v|, 4);
    var bs := Field(v) + rest;
    assert bs[..4] == Le(|v|, 4) && bs[4..] == v + rest;
    assert (v + rest)[..|v|] == v && (v + rest)[|v|..] == rest;
  }

  lemma {:induction false} TakeFieldsEncoded(vs: seq<seq<byte>>, rest: seq<byte>)
    requires forall i | 0 <= i < |vs| :: |vs[i]| < U32
    ensures TakeFields(Fields(vs) + rest, |vs|) == Some(Parsed(vs, rest))
    decreases |vs|
  {
    if vs == [] {
      assert Fields(vs) + rest == rest;
    } else {
      var tail := Fields(vs[1..]) + rest;
      assert Fields(vs) + rest == Field(vs[0]) + tail;
      TakeFieldEncoded(vs[0], tail);
      TakeFieldsEncoded(vs[1..], rest);
      assert [vs[0]] + vs[1..] == vs;
    }
  }

  lemma TailEncoded(h: Hello)
    requires Encodable(h)
    ensures Tail(EncodeTail(h), h.deviceId, h.version, h.hostname, h.os) == Some(h)
  {
    var r1 := Le(h.signedAtMs, 8) + Field(h.nonce);
    var r2 := Le(h.lastAck, 8) + r1;
    TakeLeEncoded(|h.capabilities|, 4, Fields(h.capabilities) + r2);
    TakeFieldsEncoded(h.capabilities, r2);
    TakeLeEncoded(h.lastAck, 8, r1);
    TakeLeEncoded(h.signedAtMs, 8, Field(h.nonce));
    TakeFieldEncoded(h.nonce, []);
    assert Field(h.nonce) + [] == Field(h.nonce);
  }

  /** Decoding the signed bytes gives back every field, the capability list and both integers. */
  lemma DecodeUndoesEncode(h: Hello)
    requires Encodable(h)
    ensures Decode(Encode(h)) == Some(h)
  {
    assert Encode(h)[|DOMAIN|..] == Fields(Heading(h)) + EncodeTail(h);
    TakeFieldsEncoded(Heading(h), EncodeTail(h));
    TailEncoded(h);
  }

  /** Equal signed bytes mean equal Hellos: a signature cannot be carried over to another Hello. */
  lemma EncodeIsInjective(a: Hello, b: Hello)
    requires Encodable(a) && Encodable(b) && Encode(a) == Encode(b)
    ensures a == b
  {
    DecodeUndoesEncode(a);
    DecodeUndoesEncode(b);
  }

  // ---- Encoding undoes decoding: no two byte strings mean the same Hello ----

  lemma TakeLeSound(bs: seq<byte>, k: nat)
    requires TakeLe(bs, k).Some?
    ensures var p := TakeLe(bs, k).value; p.value < Pow256(k) && bs == Le(p.value, k) + p.rest
  {
    LeInverse(bs[..k]);
  }

  lemma TakeFieldSound(bs: seq<byte>)
    requires TakeField(bs).Some?
    ensures var p := TakeField(bs).value; |p.value| < U32 && bs == Field(p.value) + p.rest
  {
    LeInverse(bs[..4]);
    assert bs == bs[..4] + bs[4..];
  }

  lemma {:induction false} TakeFieldsSound(bs: seq<byte>, n: nat)
    requires TakeFields(bs, n).Some?
    ensures var p := TakeFields(bs, n).value;
            && |p.value| == n && bs == Fields(p.value) + p.rest
            && forall i | 0 <= i < n :: |p.value[i]| < U32
    decreases n
  {
    if n == 0 {
    } else {
      TakeFieldSound(bs);
      var v := TakeField(bs).value;
      TakeFieldsSound(v.rest, n - 1);
      var vs := TakeFields(v.rest, n - 1).value;
      FieldsCons(v.value, vs.value, vs.rest);
    }
  }

  lemma FieldsCons(v: seq<byte>, vs: seq<seq<byte>>, rest: seq<byte>)
    ensures Fields([v] + vs) + rest == Field(v) + (Fields(vs) + rest)
  {
    assert ([v] + vs)[1..] == vs;
  }

  lemma TailSound(bs: seq<byte>, d: seq<byte>, v: seq<byte>, hn: seq<byte>, o: seq<byte>)
    requires |d| < U32 && |v| < U32 && |hn| < U32 && |o| < U32
    requires Tail(bs, d, v, hn, o).Some?
    ensures var h := Tail(bs, d, v, hn, o).value;
            && Encodable(h) && h.deviceId == d && h.version == v && h.hostname == hn && h.os == o
            && bs == EncodeTail(h)
  {
    TakeLeSound(bs, 4);
    var n := TakeLe(bs, 4).value;
    TakeFieldsSound(n.rest, n.value);
    var cs := TakeFields(n.rest, n.value).value;
    TakeLeSound(cs.rest, 8);
    var ack := TakeLe(cs.rest, 8).value;
    TakeLeSound(ack.rest, 8);
    var at := TakeLe(ack.rest, 8).value;
    TakeFieldSound(at.rest);
    var nonce := TakeField(at.rest).value;
    assert at.rest == Field(nonce.value);
  }

  lemma EncodeUndoesDecode(bs: seq<byte>)
    requires Decode(bs).Some?
    ensures Encodable(Decode(bs).value) && Encode(Decode(bs).value) == bs
  {
    var body := bs[|DOMAIN|..];
    assert bs == DOMAIN + body;
    TakeFieldsSound(body, 4);
    var f := TakeFields(body, 4).value;
    TailSound(f.rest, f.value[0], f.value[1], f.value[2], f.value[3]);
    assert f.value == Heading(Decode(bs).value);
  }
}
