/** The TLVs of QMI messages, and the loops of QMIThread.c, MPQMUX.c and quectel-qmi-proxy.c that walk
    them. */
module QmiTlv {
  import opened Bytes
  import opened Seqs
  import opened Options

  /** Type, 16-bit little-endian length, value. */
  datatype Tlv = Tlv(t: byte, v: seq<byte>)

  const HDR: nat := 3

  /** Where the TLVs of a service message start: after QCQMI_HDR, QCQMUX_HDR and QCQMUX_MSG_HDR. */
  const BODY: nat := 13

  function Encode(x: Tlv): (s: seq<byte>)
    ensures |s| == HDR + |x.v|
  {
    [x.t] + Le16(|x.v|) + x.v
  }

  function EncodeAll(tlvs: seq<Tlv>): seq<byte> {
    if tlvs == [] then [] else Encode(tlvs[0]) + EncodeAll(tlvs[1..])
  }

  /** Every value has a length that fits its field. */
  predicate Short(tlvs: seq<Tlv>) { forall i :: 0 <= i < |tlvs| ==> |tlvs[i].v| < 0x10000 }

  /** A body is a TLV sequence, possibly followed by fewer bytes than a TLV header. */
  predicate Body(b: seq<byte>, tlvs: seq<Tlv>, junk: seq<byte>) {
    Short(tlvs) && |junk| < HDR && b == EncodeAll(tlvs) + junk
  }

  /** The value of the first TLV of type `t`. */
  function Lookup(tlvs: seq<Tlv>, t: int): Option<seq<byte>> {
    if tlvs == [] then None else if tlvs[0].t == t then Some(tlvs[0].v) else Lookup(tlvs[1..], t)
  }

  /** The index of the first TLV of type `t`, or the number of TLVs. */
  function First(tlvs: seq<Tlv>, t: int): (k: nat)
    ensures k <= |tlvs|
    ensures k < |tlvs| ==> tlvs[k].t == t
    ensures forall i :: 0 <= i < k ==> tlvs[i].t != t
  {
    if tlvs == [] || tlvs[0].t == t then 0 else 1 + First(tlvs[1..], t)
  }

  /** The TLVs in front of the first byte that does not belong to a complete one. */
  function Parse(b: seq<byte>): (tlvs: seq<Tlv>)
    decreases |b|
  {
    if |b| < HDR then []
    else
      var n := U16((b[1], b[2]));
      if |b| < HDR + n then [] else [Tlv(b[0], b[HDR..HDR + n])] + Parse(b[HDR + n..])
  }

  // ----- the encoding

  /** Type, length with the low byte first, value. */
  lemma EncodeExample(x: byte, y: byte)
    ensures Encode(Tlv(0x14, [x, y])) == [0x14, 2, 0, x, y]
    ensures U16((0x34, 0x12)) == 0x1234
  {
  }

  lemma {:induction false} EncodeAllConcat(a: seq<Tlv>, b: seq<Tlv>)
    ensures EncodeAll(a + b) == EncodeAll(a) + EncodeAll(b)
  {
    if a == [] {
      assert a + b == b;
    } else {
      assert (a + b)[1..] == a[1..] + b;
      EncodeAllConcat(a[1..], b);
    }
  }

  /** An encoded TLV in front of more bytes. */
  lemma EncodeHead(x: Tlv, rest: seq<byte>)
    requires |x.v| < 0x10000
    ensures var b := Encode(x) + rest;
            && b[0] == x.t && U16((b[1], b[2])) == |x.v|
            && b[HDR..HDR + |x.v|] == x.v && b[HDR + |x.v|..] == rest
  {
    hide U16, Le16;
    var n := Le16(|x.v|);
    var b := Encode(x) + rest;
    assert b[1] == n[0] && b[2] == n[1];
  }

  /** Parsing what was encoded gives the TLVs back, so a body has only one reading. */
  lemma {:induction false} ParseEncode(tlvs: seq<Tlv>, junk: seq<byte>)
    requires Short(tlvs) && |junk| < HDR
    ensures Parse(EncodeAll(tlvs) + junk) == tlvs
  {
    if tlvs == [] {
      assert EncodeAll(tlvs) + junk == junk;
    } else {
      var x, rest := tlvs[0], EncodeAll(tlvs[1..]) + junk;
      hide U16, Encode;
      EncodeHead(x, rest);
      assert EncodeAll(tlvs) + junk == Encode(x) + rest;
      ParseEncode(tlvs[1..], junk);
    }
  }

  /** The k-th TLV of a body, at its offset. */
  lemma TlvAt(b: seq<byte>, tlvs: seq<Tlv>, junk: seq<byte>, k: nat)
    requires Body(b, tlvs, junk) && k < |tlvs|
    ensures var p := |EncodeAll(tlvs[..k])|;
            && p + HDR + |tlvs[k].v| <= |b|
            && b[p] == tlvs[k].t && U16((b[p + 1], b[p + 2])) == |tlvs[k].v|
            && b[p + HDR..p + HDR + |tlvs[k].v|] == tlvs[k].v
            && |EncodeAll(tlvs[..k + 1])| == p + HDR + |tlvs[k].v|
            && |EncodeAll(tlvs[..k + 1])| <= |EncodeAll(tlvs)|
  {
    hide U16, Encode, EncodeAll;
    var before, x := EncodeAll(tlvs[..k]), tlvs[k];
    var after := EncodeAll(tlvs[k + 1..]) + junk;
    EncodeAllCut(tlvs, k);
    EncodeHead(x, after);
    assert b == before + (Encode(x) + after);
    Shifted(b, before, Encode(x) + after, HDR, HDR + |x.v|);
  }

  lemma EncodeOne(x: Tlv)
    ensures EncodeAll([x]) == Encode(x)
  {
    hide Encode;
    assert EncodeAll([x]) == Encode(x) + EncodeAll([]);
  }

  lemma EncodeSnoc(tlvs: seq<Tlv>, k: nat)
    requires k < |tlvs|
    ensures EncodeAll(tlvs[..k + 1]) == EncodeAll(tlvs[..k]) + Encode(tlvs[k])
  {
    hide Encode, EncodeAll;
    assert tlvs[..k + 1] == tlvs[..k] + [tlvs[k]];
    EncodeAllConcat(tlvs[..k], [tlvs[k]]);
    EncodeOne(tlvs[k]);
  }

  lemma EncodeAllCut(tlvs: seq<Tlv>, k: nat)
    requires k < |tlvs|
    ensures EncodeAll(tlvs[..k + 1]) == EncodeAll(tlvs[..k]) + Encode(tlvs[k])
    ensures EncodeAll(tlvs) == EncodeAll(tlvs[..k]) + (Encode(tlvs[k]) + EncodeAll(tlvs[k + 1..]))
  {
    hide Encode, EncodeAll;
    EncodeSnoc(tlvs, k);
    var a, b := tlvs[..k + 1], tlvs[k + 1..];
    assert tlvs == a + b;
    EncodeAllConcat(a, b);
    Regroup(EncodeAll(tlvs[..k]), Encode(tlvs[k]), EncodeAll(b));
  }

  lemma Shifted(b: seq<byte>, front: seq<byte>, back: seq<byte>, x: nat, y: nat)
    requires b == front + back && x <= y <= |back|
    ensures b[|front| + x..|front| + y] == back[x..y]
    ensures forall i :: 0 <= i < |back| ==> b[|front| + i] == back[i]
  {
  }

  lemma LookupIs(tlvs: seq<Tlv>, t: int)
    ensures var k := First(tlvs, t);
            Lookup(tlvs, t) == if k < |tlvs| then Some(tlvs[k].v) else None
  {
    if tlvs != [] && tlvs[0].t != t {
      LookupIs(tlvs[1..], t);
    }
  }

  // ----- the walkers

  /** The length field of the message header. */
  function BodyLength(msg: seq<byte>): nat
    requires |msg| >= BODY
  {
    U16((msg[11], msg[12]))
  }

  /** A message whose body reads as `tlvs`. */
  ghost predicate Carries(msg: seq<byte>, tlvs: seq<Tlv>, junk: seq<byte>) {
    && |msg| >= BODY && BODY + BodyLength(msg) <= |msg|
    && Body(msg[BODY..BODY + BodyLength(msg)], tlvs, junk)
  }

  function Offset(tlvs: seq<Tlv>, k: nat): nat
    requires k <= |tlvs|
  {
    BODY + |EncodeAll(tlvs[..k])|
  }

  lemma MessageTlvAt(msg: seq<byte>, tlvs: seq<Tlv>, junk: seq<byte>, k: nat)
    requires Carries(msg, tlvs, junk) && k < |tlvs|
    ensures var p := Offset(tlvs, k);
            && p + HDR + |tlvs[k].v| <= BODY + BodyLength(msg)
            && msg[p] == tlvs[k].t && U16((msg[p + 1], msg[p + 2])) == |tlvs[k].v|
            && msg[p + HDR..p + HDR + |tlvs[k].v|] == tlvs[k].v
            && Offset(tlvs, k + 1) == p + HDR + |tlvs[k].v|
  {
    var b := msg[BODY..BODY + BodyLength(msg)];
    TlvAt(b, tlvs, junk, k);
    var p := |EncodeAll(tlvs[..k])|;
    SubSlice(msg, BODY, BODY + BodyLength(msg), p + HDR, p + HDR + |tlvs[k].v|);
  }

  lemma MessageEnd(msg: seq<byte>, tlvs: seq<Tlv>, junk: seq<byte>)
    requires Carries(msg, tlvs, junk)
    ensures Offset(tlvs, 0) == BODY
    ensures Offset(tlvs, |tlvs|) + |junk| == BODY + BodyLength(msg)
  {
    assert tlvs[..|tlvs|] == tlvs && tlvs[..0] == [];
  }

  /** GetTLV: the first TLV of a type, or with 0x1000 + i the i-th one; -1 stands for NULL. */
  method GetTLV(msg: array<byte>, tlvType: int, ghost tlvs: seq<Tlv>, ghost junk: seq<byte>) returns (p: int)
    requires Carries(msg[..], tlvs, junk)
    ensures var k := if tlvType > 0x1000 then tlvType - 0x1001 else First(tlvs, tlvType);
            p == if k < |tlvs| then Offset(tlvs, k) else -1
  {
    hide EncodeAll, Carries;
    CarriesShape(msg[..], tlvs, junk);
    var found := 0;
    var length := U16((msg[11], msg[12]));
    p := BODY;
    MessageEnd(msg[..], tlvs, junk);
    while length >= HDR
      invariant 0 <= found <= |tlvs| && p == Offset(tlvs, found)
      invariant p + length == BODY + BodyLength(msg[..])
      invariant tlvType > 0x1000 ==> found < tlvType - 0x1000
      invariant tlvType <= 0x1000 ==> forall i :: 0 <= i < found ==> tlvs[i].t != tlvType
      decreases length
    {
      assert found < |tlvs|;
      MessageTlvAt(msg[..], tlvs, junk, found);
      found := found + 1;
      if tlvType > 0x1000 {
        if found + 0x1000 == tlvType {
          return;
        }
      } else if msg[p] == tlvType {
        return;
      }
      var n := U16((msg[p + 1], msg[p + 2]));
      length := length - (n + HDR);
      p := p + n + HDR;
    }
    assert found == |tlvs| by { NoRoom(msg[..], tlvs, junk, found); }
    p := -1;
  }

  lemma CarriesShape(msg: seq<byte>, tlvs: seq<Tlv>, junk: seq<byte>)
    requires Carries(msg, tlvs, junk)
    ensures |msg| >= BODY && BODY + BodyLength(msg) <= |msg| && |junk| < HDR
  {
  }

  /** With fewer bytes left than a header, every TLV has been passed. */
  lemma NoRoom(msg: seq<byte>, tlvs: seq<Tlv>, junk: seq<byte>, k: nat)
    requires Carries(msg, tlvs, junk) && k <= |tlvs|
    requires BODY + BodyLength(msg) - Offset(tlvs, k) < HDR
    ensures k == |tlvs|
  {
    if k < |tlvs| {
      MessageTlvAt(msg, tlvs, junk, k);
    }
  }

  /** By number: index 0x1001 is the first TLV, right behind the 13 header bytes, and 0x1002 the second. */
  method FirstTwo(msg: array<byte>, ghost tlvs: seq<Tlv>, ghost junk: seq<byte>) returns (first: int, second: int)
    requires Carries(msg[..], tlvs, junk)
    ensures first == if |tlvs| >= 1 then 13 else -1
    ensures second == if |tlvs| >= 2 then 13 + 3 + |tlvs[0].v| else -1
  {
    hide EncodeAll, Carries;
    MessageEnd(msg[..], tlvs, junk);
    first := GetTLV(msg, 0x1001, tlvs, junk);
    second := GetTLV(msg, 0x1002, tlvs, junk);
    if |tlvs| >= 1 {
      MessageTlvAt(msg[..], tlvs, junk, 0);
    }
  }

  /** dump_tlv: asking GetTLV for one index after another lists every TLV once, in order, and stops. */
  method DumpTlv(msg: array<byte>, ghost tlvs: seq<Tlv>, ghost junk: seq<byte>) returns (seen: seq<Tlv>)
    requires Carries(msg[..], tlvs, junk)
    ensures seen == tlvs
  {
    hide EncodeAll, Carries;
    CarriesShape(msg[..], tlvs, junk);
    seen := [];
    var find := 0;
    while true
      invariant 0 <= find <= |tlvs| && seen == tlvs[..find]
      decreases |tlvs| - find
    {
      find := find + 1;
      var p := GetTLV(msg, 0x1000 + find, tlvs, junk);
      if p == -1 {
        break;
      }
      MessageTlvAt(msg[..], tlvs, junk, find - 1);
      seen := seen + [Tlv(msg[p], msg[p + HDR..p + HDR + U16((msg[p + 1], msg[p + 2]))])];
    }
  }

  /** Bytes trailing the TLVs are fewer than a header; a loop that only counts bytes takes them for one and
      reads on behind the body. `Readable` says that the memory there exists. */
  predicate Readable(msg: seq<byte>, tlvs: seq<Tlv>, junk: seq<byte>) {
    junk != [] ==> Offset(tlvs, |tlvs|) + HDR <= |msg|
  }

  lemma JunkAt(msg: seq<byte>, tlvs: seq<Tlv>, junk: seq<byte>)
    requires Carries(msg, tlvs, junk) && junk != []
    ensures Offset(tlvs, |tlvs|) < |msg| && msg[Offset(tlvs, |tlvs|)] == junk[0]
  {
    hide EncodeAll;
    assert tlvs[..|tlvs|] == tlvs;
    assert msg[BODY..BODY + BodyLength(msg)][|EncodeAll(tlvs)|] == junk[0];
  }

  /** qmi_find_tlv: counts up to the body length and compares the type only. */
  method QmiFindTlv(msg: array<byte>, tlvType: byte, ghost tlvs: seq<Tlv>, ghost junk: seq<byte>) returns (p: int)
    requires Carries(msg[..], tlvs, junk) && Readable(msg[..], tlvs, junk)
    ensures var k := First(tlvs, tlvType);
            p == if k < |tlvs| || (junk != [] && junk[0] == tlvType) then Offset(tlvs, k) else -1
  {
    hide EncodeAll, Carries;
    CarriesShape(msg[..], tlvs, junk);
    MessageEnd(msg[..], tlvs, junk);
    ghost var k := 0;
    var length := 0;
    while length < U16((msg[11], msg[12]))
      invariant 0 <= k <= |tlvs| + 1
      invariant if k <= |tlvs| then BODY + length == Offset(tlvs, k)
                else length >= BodyLength(msg[..]) && junk != [] && junk[0] != tlvType
      invariant forall i :: 0 <= i < k && i < |tlvs| ==> tlvs[i].t != tlvType
      decreases |tlvs| + 1 - k
    {
      if k < |tlvs| {
        MessageTlvAt(msg[..], tlvs, junk, k);
      } else {
        JunkAt(msg[..], tlvs, junk);
      }
      if msg[BODY + length] == tlvType {
        return BODY + length;
      }
      length := length + U16((msg[BODY + length + 1], msg[BODY + length + 2])) + HDR;
      k := k + 1;
    }
    assert k >= |tlvs| by {
      if k < |tlvs| { NoRoom(msg[..], tlvs, junk, k); }
    }
    p := -1;
  }

  /** The loop of requestRegistrationState2: the remaining length counts down while the cursor goes from
      one length field to the next type. `seen` are the TLVs the switch gets to look at, by address. */
  method WalkRegistration(msg: array<byte>, ghost tlvs: seq<Tlv>, ghost junk: seq<byte>) returns (seen: seq<nat>)
    requires Carries(msg[..], tlvs, junk) && Readable(msg[..], tlvs, junk)
    ensures |seen| == |tlvs| + if junk != [] then 1 else 0
    ensures forall i :: 0 <= i < |seen| ==> seen[i] == Offset(tlvs, i)
  {
    hide EncodeAll, Carries;
    CarriesShape(msg[..], tlvs, junk);
    MessageEnd(msg[..], tlvs, junk);
    seen := [];
    var p := BODY;
    var remaining: int := U16((msg[11], msg[12]));
    while remaining > 0
      invariant |seen| <= |tlvs| + 1
      invariant if |seen| <= |tlvs| then p == Offset(tlvs, |seen|) && p + remaining == BODY + BodyLength(msg[..])
                else remaining <= 0 && junk != []
      invariant forall i :: 0 <= i < |seen| ==> seen[i] == Offset(tlvs, i)
      decreases |tlvs| + 1 - |seen|
    {
      if |seen| < |tlvs| {
        MessageTlvAt(msg[..], tlvs, junk, |seen|);
      } else {
        JunkAt(msg[..], tlvs, junk);
      }
      var n := U16((msg[p + 1], msg[p + 2]));
      seen := seen + [p];
      remaining := remaining - (n + 3);
      p := (p + 1) + n + 2;
    }
    assert |seen| >= |tlvs| by {
      if |seen| < |tlvs| { NoRoom(msg[..], tlvs, junk, |seen|); }
    }
  }

  /** The walkers on one message: GetTLV and qmi_find_tlv find the same for a type except when only the
      first trailing byte has it, and the registration walk looks at what dump_tlv lists, and nothing more
      exactly when nothing trails. */
  method SameVisits(msg: array<byte>, t: byte, ghost tlvs: seq<Tlv>, ghost junk: seq<byte>)
    returns (get: int, find: int, listed: seq<Tlv>, walked: seq<nat>)
    requires Carries(msg[..], tlvs, junk) && Readable(msg[..], tlvs, junk)
    ensures get != find <==> First(tlvs, t) == |tlvs| && junk != [] && junk[0] == t
    ensures get != -1 ==> get == find
    ensures |walked| == |listed| <==> junk == []
    ensures forall i :: 0 <= i < |listed| ==>
              i < |walked| && walked[i] + HDR <= msg.Length && msg[walked[i]] == listed[i].t
  {
    hide EncodeAll, Carries;
    get := GetTLV(msg, t, tlvs, junk);
    find := QmiFindTlv(msg, t, tlvs, junk);
    listed := DumpTlv(msg, tlvs, junk);
    walked := WalkRegistration(msg, tlvs, junk);
    CarriesShape(msg[..], tlvs, junk);
    forall i | 0 <= i < |listed| ensures walked[i] + HDR <= msg.Length && msg[walked[i]] == listed[i].t {
      MessageTlvAt(msg[..], tlvs, junk, i);
    }
  }

  /** A message with one trailing byte: its body is that byte alone, followed by two zero bytes in memory. */
  function Trailing(t: byte): seq<byte> { [1, 13, 0, 0, 1, 1, 0, 0, 0, 0, 0, 1, 0, t, 0, 0] }

  /** A message on which the lookups disagree, for any type. */
  lemma TrailingByteSplits(t: byte)
    ensures Carries(Trailing(t), [], [t]) && Readable(Trailing(t), [], [t])
  {
    var msg := Trailing(t);
    assert BodyLength(msg) == 1 && msg[BODY..BODY + 1] == [t];
    assert EncodeAll([]) + [t] == [t];
  }

  /** GetTLV finds nothing in it; qmi_find_tlv takes the trailing byte for a TLV. */
  method LookupsDisagree(t: byte) returns (get: int, find: int)
    ensures get == -1 && find == BODY
  {
    hide Carries, Readable, EncodeAll;
    var msg := Trailing(t);
    var buf := new byte[16](i requires 0 <= i < 16 => msg[i]);
    assert buf[..] == msg;
    TrailingByteSplits(t);
    MessageEnd(msg, [], [t]);
    get := GetTLV(buf, t, [], [t]);
    find := QmiFindTlv(buf, t, [], [t]);
  }

  // ----- which bodies the walk stays inside

  /** Walking a body with `remaining` as its 16-bit counter, some TLV is longer than what remains, so the
      counter wraps around and the cursor leaves the body. */
  predicate Wraps(b: seq<byte>)
    decreases |b|
  {
    |b| >= HDR && (|b| < HDR + U16((b[1], b[2])) || Wraps(b[HDR + U16((b[1], b[2]))..]))
  }

  /** The bytes behind the TLVs that Parse reads. */
  function Left(b: seq<byte>): seq<byte>
    decreases |b|
  {
    if |b| < HDR || |b| < HDR + U16((b[1], b[2])) then b else Left(b[HDR + U16((b[1], b[2]))..])
  }

  lemma {:induction false} ParseLeft(b: seq<byte>)
    ensures Short(Parse(b)) && b == EncodeAll(Parse(b)) + Left(b)
    ensures Wraps(b) <==> |Left(b)| >= HDR
    decreases |b|
  {
    hide Le16;
    if |b| >= HDR && |b| >= HDR + U16((b[1], b[2])) {
      var n := U16((b[1], b[2]));
      var x, rest := Tlv(b[0], b[HDR..HDR + n]), b[HDR + n..];
      ParseLeft(rest);
      EncodeBack(b, n);
      assert Parse(b) == [x] + Parse(rest);
      assert EncodeAll(Parse(b)) == Encode(x) + EncodeAll(Parse(rest));
      Regroup(Encode(x), EncodeAll(Parse(rest)), Left(rest));
    }
  }

  /** Encoding what was read at the front of some bytes gives those bytes back. */
  lemma EncodeBack(b: seq<byte>, n: nat)
    requires HDR <= |b| && n == U16((b[1], b[2])) && HDR + n <= |b|
    ensures b == Encode(Tlv(b[0], b[HDR..HDR + n])) + b[HDR + n..]
  {
    Le16Back(b[1], b[2]);
    assert b == [b[0]] + [b[1], b[2]] + b[HDR..HDR + n] + b[HDR + n..];
  }

  lemma Le16Back(lo: byte, hi: byte)
    ensures Le16(U16((lo, hi))) == [lo, hi]
  {
  }

  /** The walk stays inside the body, so that GetTLV is bound by its contract, exactly when no TLV is longer
      than what remains: on every other body the 16-bit counter wraps. */
  lemma WalksInsideIff(b: seq<byte>)
    ensures !Wraps(b) <==> exists tlvs, junk :: Body(b, tlvs, junk)
  {
    ParseLeft(b);
    if !Wraps(b) {
      assert Body(b, Parse(b), Left(b));
    }
    if tlvs, junk :| Body(b, tlvs, junk) {
      BodyNeverWraps(tlvs, junk);
    }
  }

  lemma {:induction false} BodyNeverWraps(tlvs: seq<Tlv>, junk: seq<byte>)
    requires Short(tlvs) && |junk| < HDR
    ensures !Wraps(EncodeAll(tlvs) + junk)
  {
    hide U16, Encode;
    if tlvs == [] {
      assert EncodeAll(tlvs) + junk == junk;
    } else {
      var rest := EncodeAll(tlvs[1..]) + junk;
      EncodeHead(tlvs[0], rest);
      assert EncodeAll(tlvs) + junk == Encode(tlvs[0]) + rest;
      BodyNeverWraps(tlvs[1..], junk);
    }
  }
}
