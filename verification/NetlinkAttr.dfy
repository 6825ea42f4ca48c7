/** The netlink attributes of mobile/quectel-CM/src/libmnl/attr.c: what the builder writes, what the
    iterators read from any bytes, and the tree that survives the trip. */
module NetlinkAttr {
  import opened Bytes
  import opened Seqs

  /** MNL_ALIGN. */
  function Align(n: nat): (m: nat)
    ensures n <= m < n + 4 && m % 4 == 0
  {
    (n + 3) / 4 * 4
  }

  const HDR: nat := 4
  const NESTED: nat := 0x8000
  const TYPE_MASK: nat := 0x3FFF

  /** An attribute tree: a payload, or a nest of attributes. */
  datatype Attr = Leaf(t: nat, v: seq<byte>) | Nest(t: nat, kids: seq<Attr>)

  /** One attribute as an iterator sees it: the raw nla_type and the payload. */
  datatype Raw = Raw(nlaType: nat, payload: seq<byte>)

  /** mnl_attr_get_type. */
  function GetType(r: Raw): nat { r.nlaType % (TYPE_MASK + 1) }

  function Zeros(n: nat): seq<byte> { seq(n, _ => 0) }

  /** The bytes mnl_attr_put writes: nla_len is a uint16_t. */
  function PutBytes(t: nat, v: seq<byte>): (s: seq<byte>)
    ensures |s| == HDR + Align(|v|)
  {
    Le16(HDR + |v|) + Le16(t) + v + Zeros(Align(|v|) - |v|)
  }

  /** NLA_F_NESTED | type, as a uint16_t. */
  function NestType(t: nat): nat { if t / NESTED % 2 == 1 then t % 0x10000 else t % 0x10000 + NESTED }

  function Encode(a: Attr): (s: seq<byte>)
    ensures |s| >= HDR
    decreases a, 0
  {
    match a
    case Leaf(t, v) => PutBytes(t, v)
    case Nest(t, kids) =>
      var body := EncodeAll(kids);
      Le16(HDR + |body|) + Le16(NestType(t)) + body
  }

  function EncodeAll(forest: seq<Attr>): (s: seq<byte>)
    decreases forest, 1
  {
    if forest == [] then [] else Encode(forest[0]) + EncodeAll(forest[1..])
  }

  // ----- reading

  /** mnl_attr_ok on the bytes from the attribute to the end of the payload. */
  predicate Ok(b: seq<byte>) {
    |b| >= HDR && U16((b[0], b[1])) >= HDR && U16((b[0], b[1])) <= |b|
  }

  /** The bytes behind the first attribute; mnl_attr_next may step past the end. */
  function Rest(b: seq<byte>): (r: seq<byte>)
    requires Ok(b)
    ensures |r| < |b|
  {
    var step := Align(U16((b[0], b[1])));
    if step <= |b| then b[step..] else []
  }

  function Head(b: seq<byte>): Raw
    requires Ok(b)
  {
    Raw(U16((b[2], b[3])), b[HDR..U16((b[0], b[1]))])
  }

  /** What the iterators visit, on any bytes at all. */
  function Attrs(b: seq<byte>): seq<Raw>
    decreases |b|
  {
    if Ok(b) then [Head(b)] + Attrs(Rest(b)) else []
  }

  /** Reading a forest back: attributes with the nested flag are descended into. */
  function Decode(b: seq<byte>): seq<Attr>
    decreases |b|
  {
    if Ok(b) then
      var r := Head(b);
      [if r.nlaType >= NESTED then Nest(GetType(r), Decode(r.payload)) else Leaf(GetType(r), r.payload)]
      + Decode(Rest(b))
    else []
  }

  /** Types leave the two flag bits free, and every length fits 16 bits. */
  predicate Fits(a: Attr)
    decreases a, 0
  {
    && a.t <= TYPE_MASK
    && match a
       case Leaf(t, v) => HDR + |v| < 0x10000
       case Nest(t, kids) => HDR + |EncodeAll(kids)| < 0x10000 && AllFit(kids)
  }

  predicate AllFit(forest: seq<Attr>)
    decreases forest, 1
  {
    forest == [] || (Fits(forest[0]) && AllFit(forest[1..]))
  }

  lemma AlignHeader(n: nat)
    ensures Align(HDR + n) == HDR + Align(n)
  {
  }

  lemma AlignWhole(n: nat)
    requires n % 4 == 0
    ensures Align(n) == n
  {
  }

  /** Every encoding ends where the next attribute may start. */
  lemma {:induction false} EncodeAligned(a: Attr)
    ensures |Encode(a)| % 4 == 0
    decreases a, 0
  {
    hide Align, PutBytes, EncodeAll;
    match a
    case Leaf(t, v) =>
      AlignHeader(|v|);
      assert |Encode(a)| == Align(HDR + |v|);
    case Nest(t, kids) =>
      EncodeAllAligned(kids);
      SumAligned(HDR, |EncodeAll(kids)|);
  }

  lemma {:induction false} EncodeAllAligned(forest: seq<Attr>)
    ensures |EncodeAll(forest)| % 4 == 0
    decreases forest, 1
  {
    if forest != [] {
      EncodeAligned(forest[0]);
      EncodeAllAligned(forest[1..]);
      SumAligned(|Encode(forest[0])|, |EncodeAll(forest[1..])|);
    }
  }

  lemma SumAligned(m: nat, n: nat)
    requires m % 4 == 0 && n % 4 == 0
    ensures (m + n) % 4 == 0
  {
  }

  /** A header followed by a body and padding is read back by the iterator. */
  lemma HeadOf(ty: nat, body: seq<byte>, pad: seq<byte>, more: seq<byte>)
    requires ty < 0x10000 && HDR + |body| < 0x10000 && |body| + |pad| == Align(|body|)
    ensures var b := Le16(HDR + |body|) + Le16(ty) + body + pad + more;
            Ok(b) && Rest(b) == more && Head(b) == Raw(ty, body)
  {
    hide Le16, Align;
    var len, tag := Le16(HDR + |body|), Le16(ty);
    var b := len + tag + body + pad + more;
    AlignHeader(|body|);
    assert b[0] == len[0] && b[1] == len[1] && b[2] == tag[0] && b[3] == tag[1];
    assert b[HDR..HDR + |body|] == body;
    assert b[HDR + Align(|body|)..] == more;
  }

  /** What the iterator is to read of an encoded attribute. */
  function RawOf(a: Attr): Raw {
    match a
    case Leaf(t, v) => Raw(t, v)
    case Nest(t, kids) => Raw(NESTED + t, EncodeAll(kids))
  }

  /** The first of the bytes `b` is `r`, and the others follow it. */
  predicate Starts(b: seq<byte>, r: Raw, more: seq<byte>) { Ok(b) && Rest(b) == more && Head(b) == r }

  /** What encoding one attribute in front of more bytes looks like to the iterator. */
  lemma HeadOfEncoded(a: Attr, more: seq<byte>)
    requires Fits(a)
    ensures Starts(Encode(a) + more, RawOf(a), more)
  {
    hide Le16, Align, Ok, Rest, Head, EncodeAll, PutBytes;
    match a
    case Leaf(t, v) => HeadOfLeaf(t, v, more);
    case Nest(t, kids) =>
      EncodeAllAligned(kids);
      HeadOfNest(t, EncodeAll(kids), more);
  }

  lemma HeadOfLeaf(t: nat, v: seq<byte>, more: seq<byte>)
    requires t < 0x10000 && HDR + |v| < 0x10000
    ensures var b := PutBytes(t, v) + more; Ok(b) && Rest(b) == more && Head(b) == Raw(t, v)
  {
    hide Le16, Align, Ok, Rest, Head;
    HeadOf(t, v, Zeros(Align(|v|) - |v|), more);
  }

  lemma HeadOfNest(t: nat, body: seq<byte>, more: seq<byte>)
    requires t <= TYPE_MASK && HDR + |body| < 0x10000 && |body| % 4 == 0
    ensures var b := Le16(HDR + |body|) + Le16(NestType(t)) + body + more;
            Ok(b) && Rest(b) == more && Head(b) == Raw(NESTED + t, body)
  {
    hide Le16, Align, Ok, Rest, Head;
    AlignWhole(|body|);
    HeadOf(NESTED + t, body, [], more);
    assert Le16(HDR + |body|) + Le16(NESTED + t) + body + [] == Le16(HDR + |body|) + Le16(NESTED + t) + body;
  }

  /** Every tree whose types and lengths fit reads back as itself, in order, at every depth. */
  lemma {:induction false} DecodeEncode(forest: seq<Attr>)
    requires AllFit(forest)
    ensures Decode(EncodeAll(forest)) == forest
    decreases forest
  {
    hide Ok, Rest, Head, Encode;
    if forest == [] {
      assert !Ok([]) by { EmptyNotOk(); }
    } else {
      var a := forest[0];
      HeadOfEncoded(a, EncodeAll(forest[1..]));
      DecodeEncode(forest[1..]);
      if a.Nest? {
        DecodeEncode(a.kids);
      }
    }
  }

  lemma EmptyNotOk()
    ensures !Ok([])
  {
  }

  /** What one mnl_attr_put adds to the message: nlmsg_len grows by the aligned 16-bit length. */
  function Added(t: nat, v: seq<byte>): seq<byte> {
    var bytes := PutBytes(t, v);
    var grown := Align((HDR + |v|) % 0x10000);
    if grown <= |bytes| then bytes[..grown] else bytes
  }

  /** What the calls for a tree add to the message, whether it fits or not: a nest's length is truncated,
      but its bytes all stay. */
  function Wire(a: Attr): (s: seq<byte>)
    decreases a, 0
  {
    match a
    case Leaf(t, v) => Added(t, v)
    case Nest(t, kids) =>
      var body := WireAll(kids);
      Le16(HDR + |body|) + Le16(NestType(t)) + body
  }

  function WireAll(forest: seq<Attr>): (s: seq<byte>)
    decreases forest, 1
  {
    if forest == [] then [] else Wire(forest[0]) + WireAll(forest[1..])
  }

  lemma AddedIs(t: nat, v: seq<byte>)
    ensures |Added(t, v)| == Align((HDR + |v|) % 0x10000) <= |PutBytes(t, v)| && Added(t, v) <= PutBytes(t, v)
    ensures HDR + |v| < 0x10000 ==> Added(t, v) == PutBytes(t, v)
  {
    hide Align, PutBytes;
    AlignHeader(|v|);
    AlignTruncated(HDR + |v|);
  }

  /** The calls never add more than the untruncated form. */
  lemma {:induction false} WireShorter(a: Attr)
    ensures |Wire(a)| <= |Encode(a)|
    decreases a, 0
  {
    hide Added, PutBytes, Align;
    match a
    case Leaf(t, v) => AddedIs(t, v);
    case Nest(t, kids) => WireAllShorter(kids);
  }

  lemma {:induction false} WireAllShorter(forest: seq<Attr>)
    ensures |WireAll(forest)| <= |EncodeAll(forest)|
    decreases forest, 1
  {
    hide Wire, Encode;
    if forest != [] {
      WireShorter(forest[0]);
      WireAllShorter(forest[1..]);
    }
  }

  /** What an iterator can report at all: types without flag bits, payloads within 16 bits. */
  predicate Plain(a: Attr)
    decreases a, 0
  {
    && a.t <= TYPE_MASK
    && match a
       case Leaf(t, v) => HDR + |v| < 0x10000
       case Nest(t, kids) => AllPlain(kids)
  }

  predicate AllPlain(forest: seq<Attr>)
    decreases forest, 1
  {
    forest == [] || (Plain(forest[0]) && AllPlain(forest[1..]))
  }

  lemma {:induction false} FitIsPlain(forest: seq<Attr>)
    requires AllFit(forest)
    ensures AllPlain(forest)
    decreases forest
  {
    if forest != [] {
      FitIsPlain(forest[1..]);
      if forest[0].Nest? {
        FitIsPlain(forest[0].kids);
      }
    }
  }

  lemma {:induction false} PlainWire(a: Attr)
    requires Plain(a)
    ensures Wire(a) == Encode(a)
    decreases a, 0
  {
    hide Added, PutBytes, Align, Le16;
    match a
    case Leaf(t, v) => AddedIs(t, v);
    case Nest(t, kids) => PlainWireAll(kids);
  }

  lemma {:induction false} PlainWireAll(forest: seq<Attr>)
    requires AllPlain(forest)
    ensures WireAll(forest) == EncodeAll(forest)
    decreases forest, 1
  {
    hide Wire, Encode;
    if forest != [] {
      PlainWire(forest[0]);
      PlainWireAll(forest[1..]);
    }
  }

  /** The tree of one visited attribute. */
  function Tree(r: Raw): Attr {
    if r.nlaType >= NESTED then Nest(GetType(r), Decode(r.payload)) else Leaf(GetType(r), r.payload)
  }

  lemma DecodeUnfolds(b: seq<byte>)
    ensures Decode(b) == if Ok(b) then [Tree(Head(b))] + Decode(Rest(b)) else []
    ensures Attrs(b) == if Ok(b) then [Head(b)] + Attrs(Rest(b)) else []
  {
    hide Ok, Head, Rest;
  }

  /** The forest read is made of the trees of the attributes the iterators visit. */
  lemma {:induction false} DecodeIsTrees(b: seq<byte>)
    ensures |Decode(b)| == |Attrs(b)|
    ensures forall i :: 0 <= i < |Attrs(b)| ==> Decode(b)[i] == Tree(Attrs(b)[i])
    decreases |b|
  {
    hide Ok, Head, Rest, Tree, Decode, Attrs;
    DecodeUnfolds(b);
    if Ok(b) {
      DecodeIsTrees(Rest(b));
    }
  }

  lemma HeadIsShort(b: seq<byte>)
    requires Ok(b)
    ensures HDR + |Head(b).payload| == U16((b[0], b[1])) < 0x10000 && |Head(b).payload| < |b|
  {
  }

  lemma {:induction false} DecodePlain(b: seq<byte>)
    ensures AllPlain(Decode(b))
    decreases |b|
  {
    hide Ok, Head, Rest, Decode;
    DecodeUnfolds(b);
    if Ok(b) {
      HeadIsShort(b);
      DecodePlain(Rest(b));
      DecodePlain(Head(b).payload);
    }
  }

  /** The trees read from some bytes take no more room than those bytes, padding aside. */
  lemma {:induction false} DecodeSize(b: seq<byte>)
    ensures |EncodeAll(Decode(b))| <= Align(|b|)
    decreases |b|, 0
  {
    hide Ok, Head, Rest, Decode, Encode, Align, Tree;
    DecodeUnfolds(b);
    if Ok(b) {
      HeadIsShort(b);
      DecodeSize(Rest(b));
      TreeSize(Head(b));
      AlignHeader(|Head(b).payload|);
      RestSize(b);
    }
  }

  lemma TreeSize(r: Raw)
    ensures |Encode(Tree(r))| <= HDR + Align(|r.payload|)
    decreases |r.payload|, 1
  {
    hide Align, Decode;
    if r.nlaType >= NESTED {
      DecodeSize(r.payload);
    }
  }

  lemma RestSize(b: seq<byte>)
    requires Ok(b)
    ensures Align(U16((b[0], b[1]))) + Align(|Rest(b)|) <= Align(|b|)
  {
    hide Align, U16;
    var n := U16((b[0], b[1]));
    if Align(n) <= |b| {
      AlignSum(Align(n), |b| - Align(n));
    } else {
      AlignMonotone(n, |b|);
      AlignWhole(0);
    }
  }

  lemma AlignSum(m: nat, n: nat)
    requires m % 4 == 0
    ensures Align(m + n) == m + Align(n)
  {
    assert (m / 4 * 4 + n + 3) / 4 == m / 4 + (n + 3) / 4;
  }

  lemma AlignMonotone(m: nat, n: nat)
    requires m <= n
    ensures Align(m) <= Align(n)
  {
  }

  /** A nest read from an attribute whose length is aligned is shorter than 2^16 with its header. */
  lemma NestBounded(b: seq<byte>, t: nat, kids: seq<Attr>)
    requires Ok(b) && U16((b[0], b[1])) % 4 == 0 && Decode(b)[0] == Nest(t, kids)
    ensures HDR + |EncodeAll(kids)| < 0x10000
  {
    hide Ok, Head, Rest, Decode, Align, U16, Tree, EncodeAll;
    DecodeUnfolds(b);
    HeadIsShort(b);
    var p := Head(b).payload;
    TreeKids(Head(b), t, kids);
    DecodeSize(p);
    AlignedBelow(|p|);
  }

  lemma TreeKids(r: Raw, t: nat, kids: seq<Attr>)
    requires Tree(r) == Nest(t, kids)
    ensures kids == Decode(r.payload)
  {
    hide Decode;
  }

  lemma AlignedBelow(n: nat)
    requires (HDR + n) % 4 == 0 && HDR + n < 0x10000
    ensures HDR + Align(n) < 0x10000
  {
    AlignWhole(n);
  }

  /** The length field of a nest is aligned, truncated or not. */
  lemma NestLengthAligned(t: nat, kids: seq<Attr>, more: seq<byte>)
    ensures var b := Encode(Nest(t, kids)) + more; U16((b[0], b[1])) % 4 == 0
  {
    hide Le16, U16, EncodeAll;
    EncodeAllAligned(kids);
    TruncatedAligned(HDR + |EncodeAll(kids)|);
    var n := Le16(HDR + |EncodeAll(kids)|);
    var b := Encode(Nest(t, kids)) + more;
    assert b[0] == n[0] && b[1] == n[1];
  }

  lemma TruncatedAligned(n: nat)
    requires (n - HDR) % 4 == 0
    ensures n % 0x10000 % 4 == 0
  {
    assert n % 0x10000 == n - 4 * (0x4000 * (n / 0x10000));
  }

  lemma {:induction false} FitsIfReadsBack(forest: seq<Attr>)
    requires Decode(EncodeAll(forest)) == forest
    ensures AllFit(forest)
    decreases forest
  {
    hide Ok, Head, Rest, Decode, Encode, Tree;
    if forest != [] {
      var a, more := forest[0], EncodeAll(forest[1..]);
      var b := Encode(a) + more;
      DecodePlain(b);
      DecodeUnfolds(b);
      FirstFits(a, more);
      HeadOfEncoded(a, more);
      FitsIfReadsBack(forest[1..]);
    }
  }

  lemma {:induction false} FirstFits(a: Attr, more: seq<byte>)
    requires Plain(a) && Ok(Encode(a) + more) && Decode(Encode(a) + more)[0] == a
    ensures Fits(a)
    decreases a
  {
    if a.Nest? {
      hide Ok, Head, Rest, Decode, EncodeAll, Le16;
      var b := Encode(a) + more;
      NestLengthAligned(a.t, a.kids, more);
      NestBounded(b, a.t, a.kids);
      EncodeAllAligned(a.kids);
      HeadOfNest(a.t, EncodeAll(a.kids), more);
      DecodeUnfolds(b);
      FitsIfReadsBack(a.kids);
    }
  }

  /** What the calls write for a forest reads back as that forest exactly when every type leaves the flag
      bits free and every length, of payloads and of nests, fits 16 bits. */
  lemma ReadsBackIffFits(forest: seq<Attr>)
    ensures Decode(WireAll(forest)) == forest <==> AllFit(forest)
  {
    hide Decode, WireAll, EncodeAll, AllPlain, AllFit;
    if AllFit(forest) {
      FitIsPlain(forest);
      PlainWireAll(forest);
      DecodeEncode(forest);
    }
    DecodePlain(WireAll(forest));
    if Decode(WireAll(forest)) == forest {
      PlainWireAll(forest);
      FitsIfReadsBack(forest);
    }
  }

  /** A payload put with a 16-bit type reads back as itself exactly when its length fits nla_len and the
      type leaves the flag bits free. */
  lemma LeafSurvives(t: nat, v: seq<byte>)
    ensures Decode(Added(t, v)) == [Leaf(t, v)] <==> HDR + |v| < 0x10000 && t <= TYPE_MASK
  {
    hide Decode, Added;
    var forest := [Leaf(t, v)];
    ReadsBackIffFits(forest);
    assert forest[1..] == [];
    assert WireAll(forest) == Wire(Leaf(t, v)) + WireAll([]) == Added(t, v);
    assert AllFit(forest) <==> Fits(Leaf(t, v)) && AllFit([]);
  }

  /** A nest's type field is 0x8000 plus the type, what is reported is the low 14 bits of the field, an
      attribute starts with its length and then its type, and the bytes that fill up a payload are zero. */
  lemma WireByNumber(t: nat, v: seq<byte>, k: nat)
    requires t < 0x4000
    ensures NestType(t) == 0x8000 + t
    ensures GetType(Raw(0x8000 + t, v)) == t && GetType(Raw(t, v)) == t
    ensures k < Align(|v|) - |v| ==> PutBytes(t, v)[4 + |v| + k] == 0
    ensures PutBytes(t, v)[..2] == Le16(4 + |v|) && PutBytes(t, v)[2..4] == Le16(t) && PutBytes(t, v)[4..4 + |v|] == v
  {
    hide Le16, Align;
  }

  // ----- the message under construction

  class Message {
    const buf: array<byte>
    /** nlmsg_len; the rest of the 16-byte message header is not part of this model. */
    var len: nat

    /** mnl_nlmsg_get_payload_tail, as an offset from the message. */
    function Tail(): nat
      reads this
    {
      Align(len)
    }

    /** The length is aligned and inside the buffer, so the tail is the length. */
    ghost predicate Valid()
      reads this
    {
      len % 4 == 0 && len <= buf.Length
    }

    ghost function Content(): seq<byte>
      reads this, buf
      requires Valid()
    {
      buf[..len]
    }

    constructor (size: nat, header: nat)
      requires header % 4 == 0 && header <= size
      ensures Valid() && len == header && buf.Length == size && fresh(buf)
    {
      buf := new byte[size](_ => 0);
      len := header;
    }

    /** memcpy and memset into the buffer. */
    method Store(at: nat, s: seq<byte>)
      requires at + |s| <= buf.Length
      modifies buf
      ensures buf[at..at + |s|] == s
      ensures buf[..at] == old(buf[..at])
      ensures forall k :: 0 <= k < buf.Length && !(at <= k < at + |s|) ==> buf[k] == old(buf[k])
    {
      forall k | 0 <= k < |s| {
        buf[at + k] := s[k];
      }
    }

    /** mnl_attr_put: the attribute, then the length. */
    method Put(t: nat, v: seq<byte>)
      requires Valid() && len + HDR + Align(|v|) <= buf.Length
      modifies this`len, buf
      ensures Valid() && len == old(len) + Align((HDR + |v|) % 0x10000)
      ensures buf[..old(len) + HDR + Align(|v|)] == old(Content()) + PutBytes(t, v)
    {
      hide Align, PutBytes;
      AlignWhole(len);
      var attr := Tail();
      var payloadLen := (HDR + |v|) % 0x10000;
      StoreAttr(attr, t, v);
      AlignHeader(|v|);
      SumAligned(len, Align(payloadLen));
      AlignTruncated(HDR + |v|);
      len := len + Align(payloadLen);
    }

    /** The bytes mnl_attr_put writes: header, payload, zero padding. */
    method StoreAttr(attr: nat, t: nat, v: seq<byte>)
      requires attr + HDR + Align(|v|) <= buf.Length
      modifies buf
      ensures buf[..attr + HDR + Align(|v|)] == old(buf[..attr]) + PutBytes(t, v)
    {
      hide Le16;
      ghost var pre := buf[..attr];
      Store(attr, Le16(HDR + |v|) + Le16(t));
      assert buf[..attr + HDR] == pre + (Le16(HDR + |v|) + Le16(t));
      Store(attr + HDR, v);
      var pad := Align(|v|) - |v|;
      assert buf[..attr + HDR] == pre + (Le16(HDR + |v|) + Le16(t));
      if pad > 0 {
        Store(attr + HDR + |v|, Zeros(pad));
      }
      AppendedIs(buf[..], pre, Le16(HDR + |v|) + Le16(t), v, Zeros(pad));
    }

    /** mnl_attr_put_check: refuses what would not fit, and never lets the length pass `buflen`. */
    method PutCheck(buflen: nat, t: nat, v: seq<byte>) returns (ok: bool)
      requires Valid() && buflen <= buf.Length
      modifies this`len, buf
      ensures Valid() && ok == (old(len) + HDR + Align(|v|) <= buflen)
      ensures ok ==>
                && len == old(len) + Align((HDR + |v|) % 0x10000)
                && buf[..old(len) + HDR + Align(|v|)] == old(Content()) + PutBytes(t, v)
      ensures !ok ==> len == old(len) && buf[..] == old(buf[..])
      ensures old(len) <= buflen ==> len <= buflen
    {
      hide PutBytes, Align;
      if len + HDR + Align(|v|) > buflen {
        return false;
      }
      AlignHeader(|v|);
      AlignTruncated(HDR + |v|);
      Put(t, v);
      ok := true;
    }

    /** mnl_attr_nest_start: the length of the nest is not known yet. */
    method NestStart(t: nat) returns (start: nat)
      requires Valid() && len + HDR <= buf.Length
      modifies this`len, buf
      ensures Valid() && start == old(len) && len == start + HDR
      ensures buf[..start] == old(Content()) && buf[start + 2..start + HDR] == Le16(NestType(t))
    {
      hide Le16;
      AlignWhole(len);
      start := Tail();
      Store(start + 2, Le16(NestType(t)));
      SumAligned(len, HDR);
      len := len + HDR;
    }

    /** mnl_attr_nest_start_check. */
    method NestStartCheck(buflen: nat, t: nat) returns (ok: bool, start: nat)
      requires Valid() && buflen <= buf.Length
      modifies this`len, buf
      ensures Valid() && ok == (old(len) + HDR <= buflen)
      ensures ok ==>
                && start == old(len) && len == start + HDR
                && buf[..start] == old(Content()) && buf[start + 2..start + HDR] == Le16(NestType(t))
      ensures !ok ==> len == old(len) && buf[..] == old(buf[..])
      ensures old(len) <= buflen ==> len <= buflen
    {
      ok, start := false, 0;
      if len + HDR > buflen {
        return;
      }
      start := NestStart(t);
      ok := true;
    }

    /** mnl_attr_nest_end: fills in the length, a uint16_t. */
    method NestEnd(start: nat)
      requires Valid() && start + HDR <= len
      modifies buf
      ensures buf[start..start + 2] == Le16(len - start)
      ensures buf[..start] == old(buf[..start]) && buf[start + 2..len] == old(buf[start + 2..len])
    {
      AlignWhole(len);
      Store(start, Le16(Tail() - start));
    }

    /** mnl_attr_nest_cancel: the message is as long as when the nest was started. */
    method NestCancel(start: nat)
      requires Valid() && start <= len && start % 4 == 0
      modifies this`len
      ensures Valid() && len == start
    {
      AlignWhole(len);
      len := len - (Tail() - start);
    }

    /** A properly bracketed sequence of put, nest_start and nest_end calls, for any forest at all. */
    method Build(forest: seq<Attr>)
      requires Valid() && len + |EncodeAll(forest)| <= buf.Length
      modifies this`len, buf
      ensures Valid() && Content() == old(Content()) + WireAll(forest)
      decreases forest, 1
    {
      hide Encode, Wire;
      if forest != [] {
        WireShorter(forest[0]);
        BuildOne(forest[0]);
        Build(forest[1..]);
      }
    }

    method BuildOne(a: Attr)
      requires Valid() && len + |Encode(a)| <= buf.Length
      modifies this`len, buf
      ensures Valid() && Content() == old(Content()) + Wire(a)
      decreases a, 0
    {
      hide Le16, PutBytes, Align, EncodeAll, Added;
      match a
      case Leaf(t, v) =>
        ghost var pre := Content();
        AddedIs(t, v);
        Put(t, v);
        assert Content() == (pre + PutBytes(t, v))[..len] == pre + Added(t, v);
      case Nest(t, kids) =>
        BuildNest(t, kids);
    }

    method BuildNest(t: nat, kids: seq<Attr>)
      requires Valid() && len + |Encode(Nest(t, kids))| <= buf.Length
      modifies this`len, buf
      ensures Valid() && Content() == old(Content()) + Wire(Nest(t, kids))
      decreases kids, 2
    {
      hide Le16, PutBytes, Align, EncodeAll, WireAll, NestType;
      ghost var pre, tag, body := Content(), Le16(NestType(t)), WireAll(kids);
      var start := NestStart(t);
      ghost var stub := buf[start..start + 2];
      assert Content() == pre + stub + tag;
      Build(kids);
      NestClosed(Content(), pre, stub, tag, body);
      assert buf[..start] == pre && buf[start + 2..len] == Content()[start + 2..] == tag + body;
      NestEnd(start);
      assert buf[..len] == buf[..start] + buf[start..start + 2] + buf[start + 2..len];
      assert Le16(len - start) + (tag + body) == Wire(Nest(t, kids));
    }

    /** Starting a nest, filling it and cancelling it leaves the message as it was. */
    method BuildAndCancel(t: nat, kids: seq<Attr>)
      requires Valid() && len + HDR + |EncodeAll(kids)| <= buf.Length
      modifies this`len, buf
      ensures Valid() && Content() == old(Content())
    {
      hide Le16, EncodeAll, WireAll;
      ghost var pre := Content();
      var start := NestStart(t);
      ghost var stubbed := Content();
      assert stubbed[..start] == pre;
      Build(kids);
      assert (stubbed + WireAll(kids))[..start] == stubbed[..start];
      NestCancel(start);
      assert Content() == buf[..start];
    }
  }

  lemma NestClosed(b: seq<byte>, pre: seq<byte>, stub: seq<byte>, tag: seq<byte>, body: seq<byte>)
    requires |stub| == 2 && b == pre + stub + tag + body
    ensures b[..|pre|] == pre && b[|pre| + 2..] == tag + body
  {
  }

  lemma AlignTruncated(n: nat)
    ensures Align(n % 0x10000) <= Align(n)
  {
  }

  lemma AppendedIs(b: seq<byte>, pre: seq<byte>, head: seq<byte>, v: seq<byte>, zeros: seq<byte>)
    requires |pre| + |head| + |v| + |zeros| <= |b|
    requires b[..|pre| + |head|] == pre + head
    requires b[|pre| + |head|..|pre| + |head| + |v|] == v
    requires b[|pre| + |head| + |v|..|pre| + |head| + |v| + |zeros|] == zeros
    ensures b[..|pre| + |head| + |v| + |zeros|] == pre + (head + v + zeros)
  {
    var i, j := |pre| + |head|, |pre| + |head| + |v|;
    assert b[..j + |zeros|] == b[..i] + b[i..j] + b[j..j + |zeros|];
  }

  // ----- the iterators

  /** The bytes between two offsets, none when the cursor has passed the end. */
  function Between(b: seq<byte>, from: nat, end: nat): seq<byte>
    requires end <= |b|
  {
    if from <= end then b[from..end] else []
  }

  /** mnl_attr_ok: `len` is a pointer difference and may be negative. */
  predicate AttrOk(buf: array<byte>, attr: nat, len: int)
    reads buf
    requires attr + len <= buf.Length
  {
    len >= HDR && U16((buf[attr], buf[attr + 1])) >= HDR && U16((buf[attr], buf[attr + 1])) <= len
  }

  /** A callback goes on while it returns more than MNL_CB_STOP. */
  predicate GoesOn(cb: Raw -> int, r: Raw) { cb(r) > 0 }

  /** What mnl_attr_parse and its variants return after visiting `visited`. */
  function Verdict(cb: Raw -> int, visited: seq<Raw>): int {
    if visited == [] then 1 else cb(visited[|visited| - 1])
  }

  /** The attribute whose header is at `off` is r, and lies wholly inside the payload. */
  ghost predicate Lies(b: seq<byte>, start: nat, end: nat, off: nat, r: Raw) {
    && start <= off && off + HDR + |r.payload| <= end <= |b|
    && U16((b[off], b[off + 1])) == HDR + |r.payload| && U16((b[off + 2], b[off + 3])) == r.nlaType
    && r.payload == b[off + HDR..off + HDR + |r.payload|]
  }

  /** The first attribute is at the start, every other one at the aligned end of the one before. */
  ghost predicate Follows(start: nat, offs: seq<nat>, visited: seq<Raw>, k: nat)
    requires k < |offs| <= |visited|
  {
    offs[k] == if k == 0 then start else offs[k - 1] + Align(HDR + |visited[k - 1].payload|)
  }

  /** Where the visited attributes start, and that each lies wholly inside the payload. */
  ghost predicate Inside(b: seq<byte>, start: nat, end: nat, offs: seq<nat>, visited: seq<Raw>) {
    |offs| == |visited| && end <= |b| && LieAll(b, start, end, offs, visited) && FollowAll(start, offs, visited)
  }

  ghost predicate LieAll(b: seq<byte>, start: nat, end: nat, offs: seq<nat>, visited: seq<Raw>)
    requires |offs| == |visited|
  {
    forall k :: 0 <= k < |offs| ==> Lies(b, start, end, offs[k], visited[k])
  }

  ghost predicate FollowAll(start: nat, offs: seq<nat>, visited: seq<Raw>)
    requires |offs| == |visited|
  {
    forall k :: 0 <= k < |offs| ==> Follows(start, offs, visited, k)
  }

  /** mnl_attr_parse_payload, with the end of the payload as an offset: on any bytes the loop ends, calls
      the callback on the attributes in order until one refuses, and stays inside the payload. `offs` are
      the attribute pointers handed to the callback. */
  method ParsePayload(buf: array<byte>, start: nat, end: nat, cb: Raw -> int)
    returns (ret: int, visited: seq<Raw>, offs: seq<nat>)
    requires end <= buf.Length
    ensures visited <= Attrs(Between(buf[..], start, end)) && ret == Verdict(cb, visited)
    ensures forall k :: 0 <= k < |visited| - 1 ==> GoesOn(cb, visited[k])
    ensures ret > 0 ==> visited == Attrs(Between(buf[..], start, end))
    ensures Inside(buf[..], start, end, offs, visited)
  {
    hide Align, Attrs, Between, Inside, NextOff, Ok, Head, Rest;
    var attr := start;
    ret, visited, offs := 1, [], [];
    ghost var all := Attrs(Between(buf[..], start, end));
    InsideNone(buf[..], start, end);
    while AttrOk(buf, attr, end - attr)
      invariant ret == Verdict(cb, visited) && ret > 0
      invariant visited + Attrs(Between(buf[..], attr, end)) == all
      invariant forall k :: 0 <= k < |visited| ==> GoesOn(cb, visited[k])
      invariant |offs| == |visited| && Inside(buf[..], start, end, offs, visited)
      invariant attr == NextOff(start, offs, visited)
      decreases end - attr
    {
      OkIs(buf, attr, end);
      AttrsStep(buf[..], attr, end);
      var n := U16((buf[attr], buf[attr + 1]));
      var r := Raw(U16((buf[attr + 2], buf[attr + 3])), buf[attr + HDR..attr + n]);
      InsideStep(buf[..], start, end, offs, visited, attr, r);
      Regroup(visited, [r], Attrs(Between(buf[..], attr + Align(n), end)));
      visited, offs := visited + [r], offs + [attr];
      ret := cb(r);
      if ret <= 0 {
        return;
      }
      attr := attr + Align(n);
    }
    OkIs(buf, attr, end);
    AttrsEnd(Between(buf[..], attr, end));
  }

  /** Where the attribute after the visited ones would start. */
  ghost function NextOff(start: nat, offs: seq<nat>, visited: seq<Raw>): nat
    requires |offs| == |visited|
  {
    if visited == [] then start else offs[|offs| - 1] + Align(HDR + |visited[|visited| - 1].payload|)
  }

  lemma InsideNone(b: seq<byte>, start: nat, end: nat)
    requires end <= |b|
    ensures Inside(b, start, end, [], []) && NextOff(start, [], []) == start
  {
  }

  lemma InsideStep(b: seq<byte>, start: nat, end: nat, offs: seq<nat>, visited: seq<Raw>, attr: nat, r: Raw)
    requires Inside(b, start, end, offs, visited) && |offs| == |visited| && attr == NextOff(start, offs, visited)
    requires attr + HDR + |r.payload| <= end <= |b| && r.payload == b[attr + HDR..attr + HDR + |r.payload|]
    requires U16((b[attr], b[attr + 1])) == HDR + |r.payload| && U16((b[attr + 2], b[attr + 3])) == r.nlaType
    ensures Inside(b, start, end, offs + [attr], visited + [r])
    ensures |offs + [attr]| == |visited + [r]|
    ensures NextOff(start, offs + [attr], visited + [r]) == attr + Align(HDR + |r.payload|)
  {
    hide Align;
    hide LieAll, FollowAll, Lies, U16;
    LieAllStep(b, start, end, offs, visited, attr, r);
    FollowAllStep(start, offs, visited, attr, r);
  }

  lemma LieAllStep(b: seq<byte>, start: nat, end: nat, offs: seq<nat>, visited: seq<Raw>, attr: nat, r: Raw)
    requires |offs| == |visited| && LieAll(b, start, end, offs, visited) && attr == NextOff(start, offs, visited)
    requires attr + HDR + |r.payload| <= end <= |b| && r.payload == b[attr + HDR..attr + HDR + |r.payload|]
    requires U16((b[attr], b[attr + 1])) == HDR + |r.payload| && U16((b[attr + 2], b[attr + 3])) == r.nlaType
    ensures LieAll(b, start, end, offs + [attr], visited + [r])
  {
    hide Align, U16;
    assert attr >= start by {
      if offs != [] {
        assert Lies(b, start, end, offs[|offs| - 1], visited[|offs| - 1]);
      }
    }
    assert Lies(b, start, end, attr, r);
    hide Lies;
    var offs', visited' := offs + [attr], visited + [r];
    forall k | 0 <= k < |offs'| ensures Lies(b, start, end, offs'[k], visited'[k]) {
      if k < |offs| {
        assert Lies(b, start, end, offs[k], visited[k]);
      }
    }
  }

  lemma FollowAllStep(start: nat, offs: seq<nat>, visited: seq<Raw>, attr: nat, r: Raw)
    requires |offs| == |visited| && FollowAll(start, offs, visited) && attr == NextOff(start, offs, visited)
    ensures FollowAll(start, offs + [attr], visited + [r])
  {
    hide Align;
    var offs', visited' := offs + [attr], visited + [r];
    forall k | 0 <= k < |offs'| ensures Follows(start, offs', visited', k) {
      if k < |offs| {
        assert Follows(start, offs, visited, k);
      }
    }
  }

  lemma AttrsEnd(b: seq<byte>)
    requires !Ok(b)
    ensures Attrs(b) == [] && Decode(b) == []
  {
  }

  lemma AttrsStep(b: seq<byte>, attr: nat, end: nat)
    requires end <= |b| && Ok(Between(b, attr, end))
    ensures attr + HDR <= end && HDR <= U16((b[attr], b[attr + 1])) && attr + U16((b[attr], b[attr + 1])) <= end
    ensures var n := U16((b[attr], b[attr + 1]));
            var r := Raw(U16((b[attr + 2], b[attr + 3])), b[attr + HDR..attr + n]);
            && Attrs(Between(b, attr, end)) == [r] + Attrs(Between(b, attr + Align(n), end))
            && Decode(Between(b, attr, end)) ==
               [if r.nlaType >= NESTED then Nest(GetType(r), Decode(r.payload)) else Leaf(GetType(r), r.payload)]
               + Decode(Between(b, attr + Align(n), end))
  {
    hide Align, Rest, Head;
    StepIs(b, attr, end);
    var s := Between(b, attr, end);
    assert s[0] == b[attr] && s[1] == b[attr + 1];
  }

  /** The iteration on offsets follows the one on the remaining bytes. */
  lemma StepIs(b: seq<byte>, attr: nat, end: nat)
    requires end <= |b| && Ok(Between(b, attr, end))
    ensures var n := U16((b[attr], b[attr + 1]));
            && attr + n <= end
            && Head(Between(b, attr, end)) == Raw(U16((b[attr + 2], b[attr + 3])), b[attr + HDR..attr + n])
            && Rest(Between(b, attr, end)) == Between(b, attr + Align(n), end)
  {
    hide Align;
    var s := Between(b, attr, end);
    hide U16;
    assert s[0] == b[attr] && s[1] == b[attr + 1] && s[2] == b[attr + 2] && s[3] == b[attr + 3];
    var n := U16((s[0], s[1]));
    SubSlice(b, attr, end, HDR, n);
    if attr + Align(n) <= end {
      SubSlice(b, attr, end, Align(n), end - attr);
    }
  }

  /** mnl_attr_parse_nested: the payload of an attribute already found in a message. */
  method ParseNested(buf: array<byte>, attr: nat, cb: Raw -> int)
    returns (ret: int, visited: seq<Raw>, offs: seq<nat>)
    requires attr + HDR <= buf.Length && HDR <= U16((buf[attr], buf[attr + 1])) <= buf.Length - attr
    ensures var nest := Head(buf[attr..]);
            && visited <= Attrs(nest.payload) && ret == Verdict(cb, visited)
            && (ret > 0 ==> visited == Attrs(nest.payload))
    ensures Inside(buf[..], attr + HDR, attr + U16((buf[attr], buf[attr + 1])), offs, visited)
  {
    hide Attrs, Inside;
    var payloadLen := (U16((buf[attr], buf[attr + 1])) - HDR) % 0x10000;
    assert buf[attr..][HDR..HDR + payloadLen] == buf[attr + HDR..attr + HDR + payloadLen];
    ret, visited, offs := ParsePayload(buf, attr + HDR, attr + HDR + payloadLen, cb);
  }

  /** mnl_attr_parse on a message: from behind the message header and the extra header to the tail. */
  method Parse(m: Message, offset: nat, cb: Raw -> int)
    returns (ret: int, visited: seq<Raw>, offs: seq<nat>)
    requires m.Tail() <= m.buf.Length
    ensures var payload := Between(m.buf[..], 16 + Align(offset), m.Tail());
            && visited <= Attrs(payload) && ret == Verdict(cb, visited)
            && (ret > 0 ==> visited == Attrs(payload))
    ensures Inside(m.buf[..], 16 + Align(offset), m.Tail(), offs, visited)
  {
    ret, visited, offs := ParsePayload(m.buf, 16 + Align(offset), m.Tail(), cb);
  }

  /** A callback that accepts every attribute. */
  const ACCEPT_ALL: Raw -> int := r => 1

  /** A reader on top of mnl_attr_parse: the attributes it reported are turned into trees, those with the
      nested flag by mnl_attr_parse_nested at the pointer the callback was given. */
  method ReadTrees(buf: array<byte>, visited: seq<Raw>, offs: seq<nat>, ghost start: nat, ghost end: nat)
    returns (forest: seq<Attr>)
    requires end <= buf.Length && Inside(buf[..], start, end, offs, visited)
    ensures |forest| == |visited| && forall i :: 0 <= i < |visited| ==> forest[i] == Tree(visited[i])
    decreases if start <= end then end - start else 0
  {
    hide Decode, Inside, Attrs, Follows;
    InsideLength(buf[..], start, end, offs, visited);
    forest := [];
    while |forest| < |visited|
      invariant |forest| <= |visited| == |offs|
      invariant forall i :: 0 <= i < |forest| ==> forest[i] == Tree(visited[i])
      decreases |visited| - |forest|
    {
      var r, attr := visited[|forest|], offs[|forest|];
      InsideAt(buf[..], start, end, offs, visited, |forest|);
      if r.nlaType >= NESTED {
        var _, below, belowOffs := ParseNested(buf, attr, ACCEPT_ALL);
        assert Head(buf[attr..]).payload == r.payload;
        var kids := ReadTrees(buf, below, belowOffs, attr + HDR, attr + U16((buf[attr], buf[attr + 1])));
        DecodeIsTrees(r.payload);
        forest := forest + [Nest(GetType(r), kids)];
      } else {
        forest := forest + [Leaf(GetType(r), r.payload)];
      }
    }
  }

  lemma InsideLength(b: seq<byte>, start: nat, end: nat, offs: seq<nat>, visited: seq<Raw>)
    requires Inside(b, start, end, offs, visited)
    ensures |offs| == |visited|
  {
  }

  lemma InsideAt(b: seq<byte>, start: nat, end: nat, offs: seq<nat>, visited: seq<Raw>, k: nat)
    requires Inside(b, start, end, offs, visited) && k < |visited|
    ensures |offs| == |visited| && Lies(b, start, end, offs[k], visited[k])
  {
  }

  /** Reading a whole message: mnl_attr_parse, then the nests. */
  method ReadMessage(m: Message, offset: nat) returns (forest: seq<Attr>)
    requires m.Tail() <= m.buf.Length
    ensures forest == Decode(Between(m.buf[..], 16 + Align(offset), m.Tail()))
  {
    hide Decode, Inside, Attrs, Between, Align, Tree;
    var _, visited, offs := Parse(m, offset, ACCEPT_ALL);
    forest := ReadTrees(m.buf, visited, offs, 16 + Align(offset), m.Tail());
    DecodeIsTrees(Between(m.buf[..], 16 + Align(offset), m.Tail()));
  }

  lemma OkIs(buf: array<byte>, attr: nat, end: nat)
    requires end <= buf.Length
    ensures Ok(Between(buf[..], attr, end)) <==> AttrOk(buf, attr, end - attr)
  {
  }

  /** Any forest built into a message and read from it is read as itself exactly when it fits. */
  method BuildAndRead(forest: seq<Attr>) returns (read: seq<Attr>)
    ensures read == forest <==> AllFit(forest)
    ensures read == Decode(WireAll(forest))
  {
    hide EncodeAll, WireAll, AllFit, Decode, Align;
    var m := new Message(16 + |EncodeAll(forest)|, 16);
    m.Build(forest);
    AlignWhole(m.len);
    AlignWhole(0);
    read := ReadMessage(m, 0);
    assert m.buf[16..m.len] == m.Content()[16..] == WireAll(forest);
    ReadsBackIffFits(forest);
  }
}
