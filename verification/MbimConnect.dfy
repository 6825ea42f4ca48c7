/** The MBIM connect request: three strings widened to 16-bit units behind a fixed header, sized in a first
    pass and filled in a second (mobile/quectel-CM/src/mbim-cm.c). */
module MbimConnect {
  import opened Bytes

  /** sizeof(MBIM_SET_CONNECT_T): eleven 32-bit fields and a 16-byte UUID. */
  const HEADER: nat := 60
  const ACCESS_STRING: nat := 8
  const USER_NAME: nat := 16
  const PASSWORD: nat := 24
  const FIELDS_END: nat := 32
  const INT_MAX: nat := 0x7FFF_FFFF

  /** _align_32: rounds up to the next multiple of 4. */
  function Align32(n: nat): (r: nat)
    ensures n <= r < n + 4 && r % 4 == 0
  {
    n + if n % 4 != 0 then 4 - n % 4 else 0
  }

  /** What the first pass adds up. */
  function BufferLength(apn: seq<byte>, user: seq<byte>, passwd: seq<byte>): nat {
    Align32(Align32(Align32(2 * |apn|) + 2 * |user|) + 2 * |passwd|)
  }

  /** Where the second pass puts each string, counted from the start of the request. */
  function ApnAt(): nat { HEADER }
  function UserAt(apn: seq<byte>): nat { HEADER + Align32(2 * |apn|) }
  function PasswdAt(apn: seq<byte>, user: seq<byte>): nat { HEADER + Align32(Align32(2 * |apn|) + 2 * |user|) }

  /** A 32-bit little-endian field. */
  function U32(b: seq<byte>, at: nat): nat
    requires at + 4 <= |b|
  {
    b[at] as nat + 0x100 * (b[at + 1] as nat + 0x100 * (b[at + 2] as nat + 0x100 * b[at + 3] as nat))
  }

  /** Every character of s followed by a zero byte, from `at` on. */
  predicate Widened(b: seq<byte>, at: nat, s: seq<byte>) {
    at + 2 * |s| <= |b| && forall k :: 0 <= k < |s| ==> b[at + 2 * k] == s[k] && b[at + 2 * k + 1] == 0
  }

  /** The offset and size fields at `field` say where s is, both 0 when it is empty, and s is there. */
  predicate Placed(b: seq<byte>, field: nat, at: nat, s: seq<byte>) {
    && field + 8 <= |b|
    && U32(b, field) == (if s == [] then 0 else at)
    && U32(b, field + 4) == 2 * |s|
    && Widened(b, at, s)
  }

  /** In the region of a string of n characters starting at `at`. */
  predicate Inside(k: int, at: nat, n: nat) { at <= k < at + 2 * n }

  /** The whole request before the caller fills in session, command and types. */
  predicate Layout(b: seq<byte>, apn: seq<byte>, user: seq<byte>, passwd: seq<byte>) {
    && |b| == HEADER + BufferLength(apn, user, passwd)
    && Placed(b, ACCESS_STRING, ApnAt(), apn)
    && Placed(b, USER_NAME, UserAt(apn), user)
    && Placed(b, PASSWORD, PasswdAt(apn, user), passwd)
    && BlankElsewhere(b, apn, user, passwd)
  }

  /** Every byte outside the six fields and the three strings is zero. */
  predicate BlankElsewhere(b: seq<byte>, apn: seq<byte>, user: seq<byte>, passwd: seq<byte>) {
    forall k :: 0 <= k < |b| && !(ACCESS_STRING <= k < FIELDS_END)
      && !Inside(k, ApnAt(), |apn|) && !Inside(k, UserAt(apn), |user|) && !Inside(k, PasswdAt(apn, user), |passwd|)
      ==> b[k] == 0
  }

  // ----- the layout

  lemma AlignShifted(n: nat)
    ensures HEADER + Align32(n) == Align32(HEADER + n)
    ensures (HEADER + Align32(n)) % 4 == 0
  {
    assert (HEADER + n) % 4 == n % 4;
  }

  /** The two passes agree: the strings lie one after another, each 4-aligned, and the first pass reserves
      exactly the aligned end of the last one. */
  lemma RegionsFit(apn: seq<byte>, user: seq<byte>, passwd: seq<byte>)
    ensures ApnAt() % 4 == 0 && UserAt(apn) % 4 == 0 && PasswdAt(apn, user) % 4 == 0
    ensures ApnAt() + 2 * |apn| <= UserAt(apn) < ApnAt() + 2 * |apn| + 4
    ensures UserAt(apn) + 2 * |user| <= PasswdAt(apn, user) < UserAt(apn) + 2 * |user| + 4
    ensures HEADER + BufferLength(apn, user, passwd) == Align32(PasswdAt(apn, user) + 2 * |passwd|)
  {
    hide Align32;
    AlignShifted(2 * |apn|);
    AlignShifted(Align32(2 * |apn|) + 2 * |user|);
    AlignShifted(Align32(Align32(2 * |apn|) + 2 * |user|) + 2 * |passwd|);
  }

  /** Four bytes are determined by the number they make up. */
  lemma U32Determines(a: seq<byte>, b: seq<byte>, at: nat)
    requires at + 4 <= |a| && at + 4 <= |b| && U32(a, at) == U32(b, at)
    ensures a[at..at + 4] == b[at..at + 4]
  {
    LowByte(a[at], a[at + 1] as nat + 0x100 * (a[at + 2] as nat + 0x100 * a[at + 3] as nat),
            b[at], b[at + 1] as nat + 0x100 * (b[at + 2] as nat + 0x100 * b[at + 3] as nat));
    LowByte(a[at + 1], a[at + 2] as nat + 0x100 * a[at + 3] as nat, b[at + 1], b[at + 2] as nat + 0x100 * b[at + 3] as nat);
    LowByte(a[at + 2], a[at + 3], b[at + 2], b[at + 3]);
  }

  lemma LowByte(x: byte, m: nat, y: byte, n: nat)
    requires x as nat + 0x100 * m == y as nat + 0x100 * n
    ensures x == y && m == n
  {
    assert (x as nat + 0x100 * m) / 0x100 == m && (y as nat + 0x100 * n) / 0x100 == n;
  }

  /** The layout leaves no byte open: two requests laid out for the same strings are equal. */
  lemma LayoutDetermines(a: seq<byte>, b: seq<byte>, apn: seq<byte>, user: seq<byte>, passwd: seq<byte>)
    requires Layout(a, apn, user, passwd) && Layout(b, apn, user, passwd)
    ensures a == b
  {
    hide Align32, U32;
    forall k | 0 <= k < |a| ensures a[k] == b[k] {
      if Inside(k, ApnAt(), |apn|) {
        WidenedAt(a, b, ApnAt(), apn, k);
      } else if Inside(k, UserAt(apn), |user|) {
        WidenedAt(a, b, UserAt(apn), user, k);
      } else if Inside(k, PasswdAt(apn, user), |passwd|) {
        WidenedAt(a, b, PasswdAt(apn, user), passwd, k);
      } else if ACCESS_STRING <= k < FIELDS_END {
        var field := k - k % 4;
        U32Determines(a, b, field);
        assert a[field..field + 4][k % 4] == b[field..field + 4][k % 4];
      }
    }
  }

  lemma WidenedAt(a: seq<byte>, b: seq<byte>, at: nat, s: seq<byte>, k: nat)
    requires Widened(a, at, s) && Widened(b, at, s) && Inside(k, at, |s|)
    ensures a[k] == b[k]
  {
    var i := (k - at) / 2;
    assert k == at + 2 * i || k == at + 2 * i + 1;
  }

  /** In figures: the fields are at 8, 16 and 24, each an offset and a size in bytes, low byte first, and the
      first string starts at offset 60. */
  lemma LayoutByNumber(b: seq<byte>, apn: seq<byte>, user: seq<byte>, passwd: seq<byte>)
    requires Layout(b, apn, user, passwd) && apn != []
    ensures |b| >= 60 + 2 * |apn| && U32(b, 8) == 60 && U32(b, 12) == 2 * |apn| && b[60] == apn[0]
    ensures U32(b, 16) == (if user == [] then 0 else UserAt(apn)) && U32(b, 20) == 2 * |user|
    ensures U32(b, 24) == (if passwd == [] then 0 else PasswdAt(apn, user)) && U32(b, 28) == 2 * |passwd|
    ensures U32([0x78, 0x56, 0x34, 0x12], 0) == 0x12345678
  {
    hide Align32;
    RegionsFit(apn, user, passwd);
  }

  // ----- filling

  method PutField(req: array<byte>, at: nat, v: nat)
    requires at + 4 <= req.Length && v < 0x1_0000_0000
    modifies req
    ensures U32(req[..], at) == v
    ensures forall k :: 0 <= k < req.Length && !(at <= k < at + 4) ==> req[k] == old(req[k])
  {
    var high, higher := v / 0x100, v / 0x10000;
    Digits(v);
    req[at] := v % 0x100;
    req[at + 1] := high % 0x100;
    req[at + 2] := higher % 0x100;
    req[at + 3] := v / 0x1000000;
  }

  lemma Digits(v: nat)
    requires v < 0x1_0000_0000
    ensures v / 0x1000000 < 0x100
    ensures v == v % 0x100 + 0x100 * (v / 0x100 % 0x100 + 0x100 * (v / 0x10000 % 0x100 + 0x100 * (v / 0x1000000)))
  {
    assert v / 0x100 / 0x100 == v / 0x10000;
    assert v / 0x10000 / 0x100 == v / 0x1000000;
  }

  /** One string of the second pass, when it is not empty. */
  method PutString(req: array<byte>, field: nat, offset: nat, s: seq<byte>)
    requires field + 8 <= HEADER
    requires HEADER + offset + 2 * |s| <= req.Length <= INT_MAX
    requires forall k :: field <= k < field + 8 ==> req[k] == 0
    modifies req
    ensures Placed(req[..], field, HEADER + offset, s)
    ensures OnlyPut(old(req[..]), req[..], field, HEADER + offset, |s|)
  {
    if |s| > 0 {
      PutField(req, field + 4, 2 * |s|);
      PutField(req, field, offset + HEADER);
      ghost var before := req[..];
      var i := 0;
      while i < |s|
        invariant 0 <= i <= |s|
        invariant forall k :: 0 <= k < i ==>
                    req[HEADER + offset + 2 * k] == s[k] && req[HEADER + offset + 2 * k + 1] == 0
        invariant forall k :: 0 <= k < req.Length && !Inside(k, HEADER + offset, i) ==> req[k] == before[k]
      {
        req[HEADER + offset + i * 2] := s[i];
        req[HEADER + offset + i * 2 + 1] := 0;
        i := i + 1;
      }
    }
  }

  /** From a to b only the two fields at `field` and the string region at `at` changed. */
  predicate OnlyPut(a: seq<byte>, b: seq<byte>, field: nat, at: nat, n: nat) {
    && |a| == |b|
    && forall k :: 0 <= k < |a| && !(field <= k < field + 8) && !Inside(k, at, n) ==> b[k] == a[k]
  }

  /** A string already placed stays placed when one is put behind it. */
  lemma StaysPlaced(a: seq<byte>, b: seq<byte>, field: nat, at: nat, s: seq<byte>, field': nat, at': nat, n: nat)
    requires Placed(a, field, at, s) && OnlyPut(a, b, field', at', n)
    requires field + 8 <= field' && field' + 8 <= HEADER <= at && at + 2 * |s| <= at'
    ensures Placed(b, field, at, s)
  {
  }

  /** The fields of the next string are still zero. */
  lemma FieldsBlank(a: seq<byte>, b: seq<byte>, field: nat, at: nat, n: nat)
    requires OnlyPut(a, b, field, at, n) && HEADER <= at
    requires forall k :: field + 8 <= k < FIELDS_END && k < |a| ==> a[k] == 0
    ensures forall k :: field + 8 <= k < FIELDS_END && k < |b| ==> b[k] == 0
  {
  }

  lemma StaysBlank(a: seq<byte>, b: seq<byte>, c: seq<byte>, d: seq<byte>,
                   apn: seq<byte>, user: seq<byte>, passwd: seq<byte>)
    requires forall k :: 0 <= k < |a| ==> a[k] == 0
    requires OnlyPut(a, b, ACCESS_STRING, ApnAt(), |apn|) && OnlyPut(b, c, USER_NAME, UserAt(apn), |user|)
    requires OnlyPut(c, d, PASSWORD, PasswdAt(apn, user), |passwd|)
    ensures BlankElsewhere(d, apn, user, passwd)
  {
    hide Align32, Inside;
  }

  /** The first pass: how much to allocate. */
  method SizePass(apn: seq<byte>, user: seq<byte>, passwd: seq<byte>) returns (buflen: int)
    ensures buflen == BufferLength(apn, user, passwd)
  {
    hide Align32;
    buflen := 0;
    if |apn| > 0 {
      buflen := buflen + 2 * |apn|;
    }
    buflen := Align32(buflen);
    if |user| > 0 {
      buflen := buflen + 2 * |user|;
    }
    buflen := Align32(buflen);
    if |passwd| > 0 {
      buflen := buflen + 2 * |passwd|;
    }
    buflen := Align32(buflen);
  }

  /** The running offset after a string: it moves only past one that is there. */
  method NextOffset(offset: nat, s: seq<byte>) returns (next: nat)
    requires offset % 4 == 0
    ensures next == Align32(offset + 2 * |s|)
  {
    hide Align32;
    next := offset;
    if |s| > 0 {
      next := next + 2 * |s|;
      next := Align32(next);
    }
  }

  /** The second pass, over the zeroed allocation. */
  method FillPass(req: array<byte>, apn: seq<byte>, user: seq<byte>, passwd: seq<byte>)
    requires req.Length == HEADER + BufferLength(apn, user, passwd) <= INT_MAX
    requires forall k :: 0 <= k < req.Length ==> req[k] == 0
    modifies req
    ensures Layout(req[..], apn, user, passwd)
  {
    hide Placed, OnlyPut, BlankElsewhere, Align32;
    RegionsFit(apn, user, passwd);
    ghost var zero := req[..];
    PutString(req, ACCESS_STRING, 0, apn);
    var offset := NextOffset(0, apn);
    ghost var first := req[..];
    FieldsBlank(zero, first, ACCESS_STRING, ApnAt(), |apn|);
    PutString(req, USER_NAME, offset, user);
    offset := NextOffset(offset, user);
    ghost var second := req[..];
    FieldsBlank(first, second, USER_NAME, UserAt(apn), |user|);
    StaysPlaced(first, second, ACCESS_STRING, ApnAt(), apn, USER_NAME, UserAt(apn), |user|);
    PutString(req, PASSWORD, offset, passwd);
    StaysPlaced(second, req[..], ACCESS_STRING, ApnAt(), apn, PASSWORD, PasswdAt(apn, user), |passwd|);
    StaysPlaced(second, req[..], USER_NAME, UserAt(apn), user, PASSWORD, PasswdAt(apn, user), |passwd|);
    StaysBlank(zero, first, second, req[..], apn, user, passwd);
  }

  /** mbim_populate_connect_data. Its int counters must not overflow. */
  method PopulateConnectData(apn: seq<byte>, user: seq<byte>, passwd: seq<byte>)
    returns (req: array<byte>, buflen: int)
    requires HEADER + BufferLength(apn, user, passwd) <= INT_MAX
    ensures fresh(req) && buflen == BufferLength(apn, user, passwd)
    ensures Layout(req[..], apn, user, passwd)
  {
    buflen := SizePass(apn, user, passwd);
    req := new byte[HEADER + buflen](_ => 0);
    FillPass(req, apn, user, passwd);
  }

  // ----- reading back

  /** A C string: the bytes before the first zero. */
  function CString(b: seq<byte>): seq<byte> {
    if b == [] || b[0] == 0 then [] else [b[0]] + CString(b[1..])
  }

  lemma {:induction false} CStringIs(b: seq<byte>, s: seq<byte>)
    requires |s| < |b| && b[..|s|] == s && b[|s|] == 0 && 0 !in s
    ensures CString(b) == s
    decreases s
  {
    if s != [] {
      assert b[0] == s[0] && b[0] in s;
      assert b[1..][..|s| - 1] == s[1..];
      CStringIs(b[1..], s[1..]);
    }
  }

  /** mbim_get_segment, into its static buffer of 256 characters. */
  method GetSegment(buff: array<byte>, msg: array<byte>, offset: nat, len: nat)
    requires buff.Length == 256 && buff != msg
    requires len / 2 < 256 && offset + len <= msg.Length
    modifies buff
    ensures buff[len / 2] == 0
    ensures forall k :: 0 <= k < len / 2 ==> buff[k] == msg[offset + k * 2]
  {
    var idx := 0;
    while idx < len / 2
      invariant 0 <= idx <= len / 2
      invariant forall k :: 0 <= k < idx ==> buff[k] == msg[offset + k * 2]
    {
      buff[idx] := msg[offset + idx * 2];
      idx := idx + 1;
    }
    buff[idx] := 0;
  }

  /** The string a receiver of the request reads at the offset and size it finds in the fields. */
  method ReadString(buff: array<byte>, req: array<byte>, field: nat, ghost at: nat, s: seq<byte>)
    requires buff.Length == 256 && buff != req
    requires Placed(req[..], field, at, s) && |s| <= 255 && 0 !in s
    modifies buff
    ensures CString(buff[..]) == s
  {
    var b := req[..];
    GetSegment(buff, req, U32(b, field), U32(b, field + 4));
    assert buff[..][..|s|] == s;
    CStringIs(buff[..], s);
  }

  /** Round trip: all three strings of up to 255 characters read back from the request. */
  method PopulateAndRead(apn: seq<byte>, user: seq<byte>, passwd: seq<byte>) returns (read: seq<seq<byte>>)
    requires |apn| <= 255 && |user| <= 255 && |passwd| <= 255
    requires 0 !in apn && 0 !in user && 0 !in passwd
    ensures read == [apn, user, passwd]
  {
    var req, _ := PopulateConnectData(apn, user, passwd);
    var buff := new byte[256](_ => 0);
    ReadString(buff, req, ACCESS_STRING, ApnAt(), apn);
    read := [CString(buff[..])];
    ReadString(buff, req, USER_NAME, UserAt(apn), user);
    read := read + [CString(buff[..])];
    ReadString(buff, req, PASSWORD, PasswdAt(apn, user), passwd);
    read := read + [CString(buff[..])];
  }
}
