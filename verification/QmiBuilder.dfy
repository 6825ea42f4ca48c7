/** Composing QMUX requests in QMIThread.c: TLVs are written at a moving offset of a 256-byte buffer, and
    reading the finished message with GetTLV gives back what was put in. */
module QmiBuilder {
  import opened Bytes
  import opened QmiTlv
  import opened Options

  /** WDM_DEFAULT_BUFSIZE. */
  const BUFSIZE: nat := 256

  /** A C string without its terminator. */
  type cstring = s: seq<byte> | forall i :: 0 <= i < |s| ==> s[i] != 0

  /** The fields of PROFILE_T that the builders read; None is a null pointer. */
  datatype Profile = Profile(apn: Option<cstring>, user: Option<cstring>, password: Option<cstring>,
                             auth: int, pdp: int, curIpFamily: int, enableIpv4: bool, enableIpv6: bool)

  const CDMA_USER: cstring := [99, 116, 110, 101, 116, 64, 109, 121, 99, 100, 109, 97, 46, 99, 110]
  const CDMA_PASSWORD: cstring := [118, 110, 101, 116, 46, 109, 111, 98, 105]

  function Low(n: int): byte { n % 256 }

  predicate Blank(s: Option<cstring>) { s.None? || s.value == [] }

  /** A CDMA network gets a default account when the profile names none. */
  function Account(p: Profile, cdma: bool): Profile {
    if cdma && Blank(p.user) && Blank(p.password) then
      p.(user := Some(CDMA_USER), password := Some(CDMA_PASSWORD), auth := 2)
    else p
  }

  function Text(t: byte, s: Option<cstring>): seq<Tlv> { if s.Some? then [Tlv(t, s.value)] else [] }

  function Flag(t: byte, present: bool, v: int): seq<Tlv> { if present then [Tlv(t, [Low(v)])] else [] }

  /** The TLVs of a start-network request. */
  function StartTlvs(p: Profile, cdma: bool): seq<Tlv> {
    var q := Account(p, cdma);
    Flag(0x30, true, if cdma then 2 else 1)
    + Text(0x14, if cdma then None else p.apn)
    + Text(0x17, q.user)
    + Text(0x18, q.password)
    + Flag(0x16, q.user.Some? && q.password.Some?, q.auth)
    + Flag(0x19, true, p.curIpFamily)
    + Flag(0x31, p.pdp != 0 && !cdma, p.pdp)
  }

  function PdpType(p: Profile): int {
    if p.enableIpv4 && p.enableIpv6 then 3 else if p.enableIpv6 then 2 else 0
  }

  /** The TLVs of a modify-profile request. */
  function ModifyTlvs(p: Profile): seq<Tlv> {
    [Tlv(0x01, [0, Low(p.pdp)])]
    + Flag(0x11, true, PdpType(p))
    + Text(0x14, p.apn)
    + Text(0x1B, p.user)
    + Text(0x1C, p.password)
    + Flag(0x1D, p.user.Some? && p.password.Some?, p.auth)
  }

  // ----- writing

  /** The buffer holds `head` followed by the encoding of `tlvs`, up to offset `end`. */
  ghost predicate Written(buf: seq<byte>, head: seq<byte>, tlvs: seq<Tlv>, end: nat) {
    && end == |head| + |EncodeAll(tlvs)| <= |buf|
    && buf[..end] == head + EncodeAll(tlvs)
  }

  /** Writing one more TLV behind what is there. */
  lemma WrittenMore(buf: seq<byte>, buf': seq<byte>, head: seq<byte>, tlvs: seq<Tlv>, end: nat, x: Tlv)
    requires Written(buf, head, tlvs, end) && end + HDR + |x.v| <= |buf'|
    requires buf'[..end] == buf[..end] && buf'[end..end + HDR + |x.v|] == Encode(x)
    ensures Written(buf', head, tlvs + [x], end + HDR + |x.v|)
  {
    hide Encode;
    EncodeAllConcat(tlvs, [x]);
    assert EncodeAll([x]) == Encode(x) + EncodeAll([]);
    assert buf'[..end + HDR + |x.v|] == buf'[..end] + buf'[end..end + HDR + |x.v|];
  }

  /** A TLV holding one byte. */
  method PutFlag(buf: array<byte>, off: nat, t: byte, v: int) returns (off': nat)
    requires off + 4 <= buf.Length
    modifies buf
    ensures off' == off + 4 && buf[..off] == old(buf[..off]) && buf[off..off'] == Encode(Tlv(t, [Low(v)]))
  {
    buf[off] := t;
    buf[off + 1] := 0x01;
    buf[off + 2] := 0;
    buf[off + 3] := Low(v);
    off' := off + 4;
  }

  /** A TLV holding a string; qstrcpy also stores the terminator, behind the value. */
  method PutText(buf: array<byte>, off: nat, t: byte, s: cstring) returns (off': nat)
    requires off + HDR + |s| + 1 <= buf.Length && |s| < 0x10000
    modifies buf
    ensures off' == off + HDR + |s| && buf[..off] == old(buf[..off]) && buf[off..off'] == Encode(Tlv(t, s))
  {
    buf[off] := t;
    buf[off + 1] := |s| % 256;
    buf[off + 2] := |s| / 256;
    Qstrcpy(buf, off + HDR, s);
    off' := off + HDR + |s|;
    EncodeIs(t, s, buf[off..off + HDR], buf[off + HDR..off']);
    assert buf[off..off'] == buf[off..off + HDR] + buf[off + HDR..off'];
  }

  lemma EncodeIs(t: byte, s: seq<byte>, h: seq<byte>, v: seq<byte>)
    requires |s| < 0x10000 && h == [t, |s| % 256, |s| / 256] && v == s
    ensures Encode(Tlv(t, s)) == h + v
  {
  }

  /** qstrcpy: the string and its terminator. */
  method Qstrcpy(buf: array<byte>, to: nat, s: cstring)
    requires to + |s| + 1 <= buf.Length
    modifies buf
    ensures buf[to..to + |s|] == s && buf[to + |s|] == 0
    ensures forall k :: 0 <= k < buf.Length && !(to <= k <= to + |s|) ==> buf[k] == old(buf[k])
  {
    var i := 0;
    while i < |s|
      invariant 0 <= i <= |s|
      invariant forall j :: 0 <= j < i ==> buf[to + j] == s[j]
      invariant forall k :: 0 <= k < buf.Length && !(to <= k < to + i) ==> buf[k] == old(buf[k])
    {
      buf[to + i] := s[i];
      i := i + 1;
    }
    buf[to + i] := 0;
  }

  // ----- the optional parts of a request

  function TextSize(s: Option<cstring>): nat { if s.Some? then HDR + |s.value| else 0 }

  method AddText(buf: array<byte>, off: nat, t: byte, s: Option<cstring>, ghost head: seq<byte>, ghost tlvs: seq<Tlv>)
    returns (off': nat)
    requires off + TextSize(s) + (if s.Some? then 1 else 0) <= buf.Length < 0x10000
    requires Written(buf[..], head, tlvs, off)
    modifies buf
    ensures off' == off + TextSize(s) && Written(buf[..], head, tlvs + Text(t, s), off')
  {
    off' := off;
    if s.Some? {
      off' := PutText(buf, off, t, s.value);
      WrittenMore(old(buf[..]), buf[..], head, tlvs, off, Tlv(t, s.value));
    } else {
      assert tlvs + [] == tlvs;
    }
  }

  method AddFlag(buf: array<byte>, off: nat, t: byte, present: bool, v: int, ghost head: seq<byte>, ghost tlvs: seq<Tlv>)
    returns (off': nat)
    requires off <= buf.Length && (present ==> off + 4 <= buf.Length)
    requires Written(buf[..], head, tlvs, off)
    modifies buf
    ensures off' == off + (if present then 4 else 0) && Written(buf[..], head, tlvs + Flag(t, present, v), off')
  {
    off' := off;
    if present {
      off' := PutFlag(buf, off, t, v);
      WrittenMore(old(buf[..]), buf[..], head, tlvs, off, Tlv(t, [Low(v)]));
    } else {
      assert tlvs + [] == tlvs;
    }
  }

  function StartSize(p: Profile, cdma: bool): nat {
    var q := Account(p, cdma);
    4 + TextSize(if cdma then None else p.apn) + TextSize(q.user) + TextSize(q.password)
    + (if q.user.Some? && q.password.Some? then 4 else 0) + 4 + (if p.pdp != 0 && !cdma then 4 else 0)
  }

  /** The strings fit: an address TLV always follows them, so their terminators need no extra room. */
  predicate StartFits(p: Profile, cdma: bool) { BODY + StartSize(p, cdma) <= BUFSIZE }

  function ModifySize(p: Profile): nat {
    5 + 4 + TextSize(p.apn) + TextSize(p.user) + TextSize(p.password)
    + if p.user.Some? && p.password.Some? then 4 else 0
  }

  /** The strings fit; when no auth TLV follows, the last terminator needs a byte of its own. */
  predicate ModifyFits(p: Profile) {
    BODY + ModifySize(p)
    + (if (p.user.Some? && p.password.Some?) || (p.apn.None? && p.user.None? && p.password.None?) then 0 else 1)
    <= BUFSIZE
  }

  lemma NothingWritten(buf: seq<byte>, head: seq<byte>)
    requires |buf| >= |head| && buf[..|head|] == head
    ensures Written(buf, head, [], |head|)
  {
  }

  /** WdsStartNwInterfaceReq: writes the body behind the headers and returns its length. */
  method WdsStartNwInterfaceReq(buf: array<byte>, p: Profile, cdma: bool) returns (size: nat)
    requires buf.Length == BUFSIZE && StartFits(p, cdma)
    modifies buf
    ensures size == StartSize(p, cdma)
    ensures Written(buf[..], old(buf[..11]) + [0, 0], StartTlvs(p, cdma), BODY + size)
  {
    hide EncodeAll, Written, Text, Flag;
    var user, password, auth := p.user, p.password, p.auth;
    if cdma && (user.None? || user.value == []) && (password.None? || password.value == []) {
      user := Some(CDMA_USER);
      password := Some(CDMA_PASSWORD);
      auth := 2;
    }
    size := WriteStart(buf, p, cdma, user, password, auth);
  }

  /** The TLVs of a start-network request for an account already chosen. */
  method WriteStart(buf: array<byte>, p: Profile, cdma: bool,
                    user: Option<cstring>, password: Option<cstring>, auth: int) returns (size: nat)
    requires buf.Length == BUFSIZE && StartFits(p, cdma)
    requires var q := Account(p, cdma); user == q.user && password == q.password && auth == q.auth
    modifies buf
    ensures size == StartSize(p, cdma)
    ensures Written(buf[..], old(buf[..11]) + [0, 0], StartTlvs(p, cdma), BODY + size)
  {
    hide EncodeAll, Written, Text, Flag, Account, StartTlvs;
    ghost var head := buf[..11] + [0, 0];
    buf[11], buf[12] := 0, 0;
    NothingWritten(buf[..], head);
    ghost var tlvs: seq<Tlv> := [];
    var off := AddFlag(buf, BODY, 0x30, true, if cdma then 2 else 1, head, []);
    tlvs := [] + Flag(0x30, true, if cdma then 2 else 1);
    off := AddText(buf, off, 0x14, if cdma then None else p.apn, head, tlvs);
    tlvs := tlvs + Text(0x14, if cdma then None else p.apn);
    off := AddText(buf, off, 0x17, user, head, tlvs);
    tlvs := tlvs + Text(0x17, user);
    off := AddText(buf, off, 0x18, password, head, tlvs);
    tlvs := tlvs + Text(0x18, password);
    off := AddFlag(buf, off, 0x16, user.Some? && password.Some?, auth, head, tlvs);
    tlvs := tlvs + Flag(0x16, user.Some? && password.Some?, auth);
    off := AddFlag(buf, off, 0x19, true, p.curIpFamily, head, tlvs);
    tlvs := tlvs + Flag(0x19, true, p.curIpFamily);
    off := AddFlag(buf, off, 0x31, p.pdp != 0 && !cdma, p.pdp, head, tlvs);
    tlvs := tlvs + Flag(0x31, p.pdp != 0 && !cdma, p.pdp);
    StartTlvsAre(p, cdma);
    size := off - BODY;
  }

  lemma StartTlvsAre(p: Profile, cdma: bool)
    ensures var q := Account(p, cdma);
            StartTlvs(p, cdma) ==
            [] + Flag(0x30, true, if cdma then 2 else 1) + Text(0x14, if cdma then None else p.apn)
            + Text(0x17, q.user) + Text(0x18, q.password) + Flag(0x16, q.user.Some? && q.password.Some?, q.auth)
            + Flag(0x19, true, p.curIpFamily) + Flag(0x31, p.pdp != 0 && !cdma, p.pdp)
  {
    hide Text, Flag, Account;
    assert [] + Flag(0x30, true, if cdma then 2 else 1) == Flag(0x30, true, if cdma then 2 else 1);
  }

  /** WdsModifyProfileSettingsReq. */
  method WdsModifyProfileSettingsReq(buf: array<byte>, p: Profile) returns (size: nat)
    requires buf.Length == BUFSIZE && ModifyFits(p)
    modifies buf
    ensures size == ModifySize(p)
    ensures Written(buf[..], old(buf[..11]) + [5, 0], ModifyTlvs(p), BODY + size)
  {
    hide EncodeAll, Written, Text, Flag;
    ghost var head := buf[..11] + [5, 0];
    buf[11], buf[12] := 5, 0;
    NothingWritten(buf[..], head);
    ghost var tlvs := [Tlv(0x01, [0, Low(p.pdp)])];
    PutProfileId(buf, p.pdp, head);
    var off := BODY + 5;
    var pdpType := if p.enableIpv4 && p.enableIpv6 then 3 else if p.enableIpv6 then 2 else 0;
    off := AddFlag(buf, off, 0x11, true, pdpType, head, tlvs);
    tlvs := tlvs + Flag(0x11, true, pdpType);
    off := AddText(buf, off, 0x14, p.apn, head, tlvs);
    tlvs := tlvs + Text(0x14, p.apn);
    off := AddText(buf, off, 0x1B, p.user, head, tlvs);
    tlvs := tlvs + Text(0x1B, p.user);
    off := AddText(buf, off, 0x1C, p.password, head, tlvs);
    tlvs := tlvs + Text(0x1C, p.password);
    off := AddFlag(buf, off, 0x1D, p.user.Some? && p.password.Some?, p.auth, head, tlvs);
    tlvs := tlvs + Flag(0x1D, p.user.Some? && p.password.Some?, p.auth);
    assert tlvs == ModifyTlvs(p);
    size := off - BODY;
  }

  /** The fixed first TLV of a modify-profile request: profile type 0 (3GPP) and index. */
  method PutProfileId(buf: array<byte>, pdp: int, ghost head: seq<byte>)
    requires buf.Length == BUFSIZE && |head| == BODY && Written(buf[..], head, [], BODY)
    modifies buf
    ensures Written(buf[..], head, [Tlv(0x01, [0, Low(pdp)])], BODY + 5)
  {
    buf[BODY], buf[BODY + 1], buf[BODY + 2], buf[BODY + 3], buf[BODY + 4] := 0x01, 2, 0, 0, Low(pdp);
    ghost var x := Tlv(0x01, [0, Low(pdp)]);
    assert buf[BODY..BODY + 5] == Encode(x);
    WrittenMore(old(buf[..]), buf[..], head, [], BODY, x);
    assert [] + [x] == [x];
  }

  // ----- the whole message

  /** The custom function ComposeQMUXMsg is given. */
  datatype Request = Plain | StartNetwork(profile: Profile) | ModifyProfile(profile: Profile)

  function RequestTlvs(r: Request, cdma: bool): seq<Tlv> {
    match r
    case Plain => []
    case StartNetwork(p) => StartTlvs(p, cdma)
    case ModifyProfile(p) => ModifyTlvs(p)
  }

  predicate RequestFits(r: Request, cdma: bool) {
    match r
    case Plain => true
    case StartNetwork(p) => StartFits(p, cdma)
    case ModifyProfile(p) => ModifyFits(p)
  }

  /** The three headers of a request. */
  function Headers(qmiType: byte, clientId: int, tid: nat, msgType: nat, bodyLength: nat): (h: seq<byte>)
    ensures |h| == BODY
  {
    [1] + Le16(bodyLength + 12) + [0, qmiType, Low(clientId)] + [0] + Le16(tid) + Le16(msgType) + Le16(bodyLength)
  }

  /** ComposeQMUXMsg: nothing is composed for a service without a client id. */
  method ComposeQMUXMsg(qmiType: byte, clientId: int, tid: nat, msgType: nat, r: Request, cdma: bool)
    returns (msg: Option<seq<byte>>)
    requires RequestFits(r, cdma)
    ensures msg.None? <==> clientId == 0
    ensures msg.Some? ==>
              var body := EncodeAll(RequestTlvs(r, cdma));
              msg.value == Headers(qmiType, clientId, tid, msgType, |body|) + body && |msg.value| <= BUFSIZE
  {
    hide EncodeAll, RequestTlvs, Headers, Front;
    if clientId == 0 {
      return None;
    }
    var buf := new byte[BUFSIZE](_ => 0);
    PutFront(buf, qmiType, clientId, tid, msgType);
    var size := WriteBody(buf, r, cdma);
    ghost var body := EncodeAll(RequestTlvs(r, cdma));
    assert buf[BODY..BODY + size] == body;
    PutLengths(buf, size, qmiType, clientId, tid, msgType);
    assert buf[..size + 13] == buf[..BODY] + buf[BODY..BODY + size];
    assert buf[..size + 13] == Headers(qmiType, clientId, tid, msgType, |body|) + body;
    msg := Some(buf[..size + 13]);
  }

  /** The header bytes in front of the message length. */
  function Front(qmiType: byte, clientId: int, tid: nat, msgType: nat): seq<byte> {
    [1, 0, 0, 0, qmiType, Low(clientId), 0, tid % 256, tid / 256 % 256, msgType % 256, msgType / 256 % 256]
  }

  method PutFront(buf: array<byte>, qmiType: byte, clientId: int, tid: nat, msgType: nat)
    requires buf.Length == BUFSIZE && buf[1] == 0 && buf[2] == 0
    modifies buf
    ensures buf[..11] == Front(qmiType, clientId, tid, msgType)
  {
    buf[0], buf[3], buf[4], buf[5] := 1, 0, qmiType, Low(clientId);
    buf[6], buf[7], buf[8] := 0, tid % 256, tid / 256 % 256;
    buf[9], buf[10] := msgType % 256, msgType / 256 % 256;
  }

  /** The call of the custom function, if there is one. */
  method WriteBody(buf: array<byte>, r: Request, cdma: bool) returns (size: nat)
    requires buf.Length == BUFSIZE && RequestFits(r, cdma)
    modifies buf
    ensures BODY + size <= BUFSIZE && size == |EncodeAll(RequestTlvs(r, cdma))|
    ensures buf[..11] == old(buf[..11]) && buf[BODY..BODY + size] == EncodeAll(RequestTlvs(r, cdma))
  {
    hide EncodeAll, StartTlvs, ModifyTlvs, Written;
    ghost var front := buf[..11];
    size := 0;
    match r {
      case Plain => NoTlvs();
      case StartNetwork(p) =>
        size := WdsStartNwInterfaceReq(buf, p, cdma);
        WrittenParts(buf[..], front, [0, 0], StartTlvs(p, cdma), BODY + size);
      case ModifyProfile(p) =>
        size := WdsModifyProfileSettingsReq(buf, p);
        WrittenParts(buf[..], front, [5, 0], ModifyTlvs(p), BODY + size);
    }
  }

  /** The two length fields, filled in once the body is known. */
  method PutLengths(buf: array<byte>, size: nat, qmiType: byte, clientId: int, tid: nat, msgType: nat)
    requires buf.Length == BUFSIZE && BODY + size <= BUFSIZE && buf[..11] == Front(qmiType, clientId, tid, msgType)
    modifies buf
    ensures buf[..BODY] == Headers(qmiType, clientId, tid, msgType, size)
    ensures buf[BODY..BODY + size] == old(buf[BODY..BODY + size])
  {
    hide Le16, Headers, Front;
    HeadersAre(qmiType, clientId, tid, msgType, size);
    ghost var front := buf[..11];
    assert forall k :: 0 <= k < 11 ==> buf[k] == front[k];
    buf[11], buf[12] := size % 256, size / 256;
    var total := size + 12;
    buf[1], buf[2] := total % 256, total / 256;
  }

  lemma HeadersAre(qmiType: byte, clientId: int, tid: nat, msgType: nat, size: nat)
    requires BODY + size <= BUFSIZE
    ensures var front := Front(qmiType, clientId, tid, msgType);
            |front| == 11
            && Headers(qmiType, clientId, tid, msgType, size)
               == front[..1] + [(size + 12) % 256, (size + 12) / 256] + front[3..] + [size % 256, size / 256]
  {
    hide Le16;
    Le16Bytes(tid);
    Le16Bytes(msgType);
    Le16Bytes(size);
    Le16Bytes(size + 12);
  }

  lemma WrittenParts(buf: seq<byte>, front: seq<byte>, len: seq<byte>, tlvs: seq<Tlv>, end: nat)
    requires Written(buf, front + len, tlvs, end)
    ensures |front + len| <= end <= |buf| && end - |front + len| == |EncodeAll(tlvs)|
    ensures buf[..|front|] == front && buf[|front + len|..end] == EncodeAll(tlvs)
  {
    assert buf[..|front|] == buf[..end][..|front|];
  }

  lemma NoTlvs()
    ensures EncodeAll([]) == []
  {
  }

  // ----- reading back

  lemma {:induction false} LookupConcat(a: seq<Tlv>, b: seq<Tlv>, t: int)
    ensures Lookup(a + b, t) == if Lookup(a, t).Some? then Lookup(a, t) else Lookup(b, t)
  {
    if a == [] {
      assert a + b == b;
    } else {
      assert (a + b)[1..] == a[1..] + b;
      LookupConcat(a[1..], b, t);
    }
  }

  lemma LookupText(t: byte, s: Option<cstring>, u: int)
    ensures Lookup(Text(t, s), u) == if u == t && s.Some? then Some(s.value) else None
  {
    if s.Some? {
      assert [Tlv(t, s.value)][1..] == [];
    }
  }

  lemma LookupFlag(t: byte, present: bool, v: int, u: int)
    ensures Lookup(Flag(t, present, v), u) == if u == t && present then Some([Low(v)]) else None
  {
    if present {
      assert [Tlv(t, [Low(v)])][1..] == [];
    }
  }

  /** Every type a start-network request can carry, looked up: the values put in, or nothing for the
      parts the builder skipped. */
  lemma StartLookup(p: Profile, cdma: bool, t: int)
    ensures var q := Account(p, cdma);
            Lookup(StartTlvs(p, cdma), t) ==
            if t == 0x30 then Some([Low(if cdma then 2 else 1)])
            else if t == 0x14 && p.apn.Some? && !cdma then Some(p.apn.value)
            else if t == 0x17 && q.user.Some? then Some(q.user.value)
            else if t == 0x18 && q.password.Some? then Some(q.password.value)
            else if t == 0x16 && q.user.Some? && q.password.Some? then Some([Low(q.auth)])
            else if t == 0x19 then Some([Low(p.curIpFamily)])
            else if t == 0x31 && p.pdp != 0 && !cdma then Some([Low(p.pdp)])
            else None
  {
    hide Lookup, Text, Flag, Account, Low;
    var q := Account(p, cdma);
    var t1, t2 := Flag(0x30, true, if cdma then 2 else 1), Text(0x14, if cdma then None else p.apn);
    var t3, t4 := Text(0x17, q.user), Text(0x18, q.password);
    var t5, t6 := Flag(0x16, q.user.Some? && q.password.Some?, q.auth), Flag(0x19, true, p.curIpFamily);
    var t7 := Flag(0x31, p.pdp != 0 && !cdma, p.pdp);
    LookupConcat(t1 + t2 + t3 + t4 + t5 + t6, t7, t);
    LookupConcat(t1 + t2 + t3 + t4 + t5, t6, t);
    LookupConcat(t1 + t2 + t3 + t4, t5, t);
    LookupConcat(t1 + t2 + t3, t4, t);
    LookupConcat(t1 + t2, t3, t);
    LookupConcat(t1, t2, t);
    LookupFlag(0x30, true, if cdma then 2 else 1, t);
    LookupText(0x14, if cdma then None else p.apn, t);
    LookupText(0x17, q.user, t);
    LookupText(0x18, q.password, t);
    LookupFlag(0x16, q.user.Some? && q.password.Some?, q.auth, t);
    LookupFlag(0x19, true, p.curIpFamily, t);
    LookupFlag(0x31, p.pdp != 0 && !cdma, p.pdp, t);
  }

  /** The same for a modify-profile request. */
  lemma ModifyLookup(p: Profile, t: int)
    ensures Lookup(ModifyTlvs(p), t) ==
            if t == 0x01 then Some([0, Low(p.pdp)])
            else if t == 0x11 then Some([Low(PdpType(p))])
            else if t == 0x14 && p.apn.Some? then Some(p.apn.value)
            else if t == 0x1B && p.user.Some? then Some(p.user.value)
            else if t == 0x1C && p.password.Some? then Some(p.password.value)
            else if t == 0x1D && p.user.Some? && p.password.Some? then Some([Low(p.auth)])
            else None
  {
    hide Text, Flag, Low;
    var t0, t1, t2 := [Tlv(0x01, [0, Low(p.pdp)])], Flag(0x11, true, PdpType(p)), Text(0x14, p.apn);
    var t3, t4 := Text(0x1B, p.user), Text(0x1C, p.password);
    var t5 := Flag(0x1D, p.user.Some? && p.password.Some?, p.auth);
    assert Lookup(t0, t) == if t == 0x01 then Some([0, Low(p.pdp)]) else None by {
      assert t0[1..] == [];
    }
    LookupConcat(t0 + t1 + t2 + t3 + t4, t5, t);
    LookupConcat(t0 + t1 + t2 + t3, t4, t);
    LookupConcat(t0 + t1 + t2, t3, t);
    LookupConcat(t0 + t1, t2, t);
    LookupConcat(t0, t1, t);
    LookupFlag(0x11, true, PdpType(p), t);
    LookupText(0x14, p.apn, t);
    LookupText(0x1B, p.user, t);
    LookupText(0x1C, p.password, t);
    LookupFlag(0x1D, p.user.Some? && p.password.Some?, p.auth, t);
  }

  lemma TextLength(t: byte, s: Option<cstring>)
    ensures |EncodeAll(Text(t, s))| == if s.Some? then 3 + |s.value| else 0
  {
    if s.Some? {
      assert [Tlv(t, s.value)][1..] == [];
    }
  }

  lemma FlagLength(t: byte, present: bool, v: int)
    ensures |EncodeAll(Flag(t, present, v))| == if present then 4 else 0
  {
    if present {
      assert [Tlv(t, [Low(v)])][1..] == [];
    }
  }

  /** A start-network request is composed for every profile whose message stays within 256 bytes. */
  lemma StartFitsIff(p: Profile, cdma: bool)
    ensures StartFits(p, cdma) <==> 13 + |EncodeAll(StartTlvs(p, cdma))| <= 256
  {
    hide EncodeAll, Text, Flag, Account;
    var q := Account(p, cdma);
    var t1, t2 := Flag(0x30, true, if cdma then 2 else 1), Text(0x14, if cdma then None else p.apn);
    var t3, t4 := Text(0x17, q.user), Text(0x18, q.password);
    var t5, t6 := Flag(0x16, q.user.Some? && q.password.Some?, q.auth), Flag(0x19, true, p.curIpFamily);
    var t7 := Flag(0x31, p.pdp != 0 && !cdma, p.pdp);
    EncodeAllConcat(t1 + t2 + t3 + t4 + t5 + t6, t7);
    EncodeAllConcat(t1 + t2 + t3 + t4 + t5, t6);
    EncodeAllConcat(t1 + t2 + t3 + t4, t5);
    EncodeAllConcat(t1 + t2 + t3, t4);
    EncodeAllConcat(t1 + t2, t3);
    EncodeAllConcat(t1, t2);
    FlagLength(0x30, true, if cdma then 2 else 1);
    TextLength(0x14, if cdma then None else p.apn);
    TextLength(0x17, q.user);
    TextLength(0x18, q.password);
    FlagLength(0x16, q.user.Some? && q.password.Some?, q.auth);
    FlagLength(0x19, true, p.curIpFamily);
    FlagLength(0x31, p.pdp != 0 && !cdma, p.pdp);
  }

  lemma LowByte(n: int)
    ensures Low(n) as int == n % 256
  {
  }

  /** The bytes of a string. */
  function Chars(s: string): seq<int> { seq(|s|, i requires 0 <= i < |s| => s[i] as int) }

  /** The account a request is sent with: on a CDMA network with neither user nor password the operator's, else
      the profile's own. */
  lemma AccountIs(p: Profile, cdma: bool)
    ensures var q := Account(p, cdma);
            var blank := (p.user.None? || p.user.value == []) && (p.password.None? || p.password.value == []);
            && (cdma && blank ==>
                  && q.user.Some? && q.password.Some? && q.auth == 2
                  && |q.user.value| == 15 && |q.password.value| == 9
                  && (forall i :: 0 <= i < 15 ==> q.user.value[i] as int == Chars("ctnet@mycdma.cn")[i])
                  && (forall i :: 0 <= i < 9 ==> q.password.value[i] as int == Chars("vnet.mobi")[i]))
            && (!(cdma && blank) ==> (q.user, q.password, q.auth) == (p.user, p.password, p.auth))
  {
  }

  /** The packet data types by number: 0 IPv4, 2 IPv6, 3 both. */
  lemma PdpTypes(p: Profile)
    ensures PdpType(p) == if p.enableIpv6 then (if p.enableIpv4 then 3 else 2) else 0
  {
  }

  lemma ShortEncoded(tlvs: seq<Tlv>)
    requires |EncodeAll(tlvs)| < 0x10000
    ensures Short(tlvs)
  {
    if tlvs != [] {
      ShortEncoded(tlvs[1..]);
    }
  }

  /** A composed message is well formed: its length fields match its bytes, and its body is the TLVs of
      the request and nothing else. */
  lemma ComposedIsWellFormed(qmiType: byte, clientId: int, tid: nat, msgType: nat, tlvs: seq<Tlv>)
    requires BODY + |EncodeAll(tlvs)| <= BUFSIZE
    ensures var body := EncodeAll(tlvs);
            var msg := Headers(qmiType, clientId, tid, msgType, |body|) + body;
            && U16((msg[1], msg[2])) + 1 == |msg|
            && BODY + BodyLength(msg) == |msg|
            && msg[0] == 1 && msg[3] == 0 && msg[4] == qmiType && msg[5] as int == clientId % 256 && msg[6] == 0
            && U16((msg[7], msg[8])) == tid % 0x10000 && U16((msg[9], msg[10])) == msgType % 0x10000
            && Carries(msg, tlvs, [])
  {
    hide EncodeAll, Le16, Low;
    var body := EncodeAll(tlvs);
    var msg := Headers(qmiType, clientId, tid, msgType, |body|) + body;
    var size, ident, kind := Le16(|body|), Le16(tid), Le16(msgType);
    var total := Le16(|body| + 12);
    assert msg[1] == total[0] && msg[2] == total[1];
    assert msg[7] == ident[0] && msg[8] == ident[1];
    assert msg[9] == kind[0] && msg[10] == kind[1];
    assert msg[4] == qmiType && msg[5] == Low(clientId);
    LowByte(clientId);
    assert msg[11] == size[0] && msg[12] == size[1];
    ShortEncoded(tlvs);
    assert msg[BODY..|msg|] == body == body + [];
  }

  /** Composing a request and asking GetTLV for a type gives back the value the request carries. */
  method ComposeAndLookUp(qmiType: byte, clientId: int, tid: nat, msgType: nat, r: Request, cdma: bool, t: byte)
    returns (v: Option<seq<byte>>)
    requires RequestFits(r, cdma) && clientId != 0
    ensures v == Lookup(RequestTlvs(r, cdma), t)
  {
    hide EncodeAll, RequestTlvs, Headers, Carries;
    var composed := ComposeQMUXMsg(qmiType, clientId, tid, msgType, r, cdma);
    ghost var tlvs := RequestTlvs(r, cdma);
    ComposedIsWellFormed(qmiType, clientId, tid, msgType, tlvs);
    var msg := composed.value;
    var buf := new byte[|msg|](i requires 0 <= i < |msg| => msg[i]);
    assert buf[..] == msg;
    var p := GetTLV(buf, t, tlvs, []);
    LookupIs(tlvs, t);
    if p == -1 {
      v := None;
    } else {
      MessageTlvAt(msg, tlvs, [], First(tlvs, t));
      v := Some(buf[p + HDR..p + HDR + U16((buf[p + 1], buf[p + 2]))]);
    }
  }
}
