/** The SM4 block cipher of gm-test/gmalg_test/src/sm4.c: its Feistel rounds inverted for every round
    function, every number of rounds and every key, and its key schedule shown injective. */
module Sm4 {
  import opened Words

  const FK: seq<word> := [0xa3b1bac6, 0x56aa3350, 0x677d9197, 0xb27022dc]

  const CK: seq<word> := [
    0x00070e15, 0x1c232a31, 0x383f464d, 0x545b6269,
    0x70777e85, 0x8c939aa1, 0xa8afb6bd, 0xc4cbd2d9,
    0xe0e7eef5, 0xfc030a11, 0x181f262d, 0x343b4249,
    0x50575e65, 0x6c737a81, 0x888f969d, 0xa4abb2b9,
    0xc0c7ced5, 0xdce3eaf1, 0xf8ff060d, 0x141b2229,
    0x30373e45, 0x4c535a61, 0x686f767d, 0x848b9299,
    0xa0a7aeb5, 0xbcc3cad1, 0xd8dfe6ed, 0xf4fb0209,
    0x10171e25, 0x2c333a41, 0x484f565d, 0x646b7279
  ]

  // ----- the cipher as pure functions

  /** The 16 rows of SboxTable, each as one number of 16 bytes, first entry on top. */
  function SboxRow(h: octet): bv128 {
    if h == 0 then 0xd690e9fecce13db716b614c228fb2c05
    else if h == 1 then 0x2b679a762abe04c3aa44132649860699
    else if h == 2 then 0x9c4250f491ef987a33540b43edcfac62
    else if h == 3 then 0xe4b31ca9c908e89580df94fa758f3fa6
    else if h == 4 then 0x4707a7fcf37317ba83593c19e6854fa8
    else if h == 5 then 0x686b81b27164da8bf8eb0f4b70569d35
    else if h == 6 then 0x1e240e5e6358d1a225227c3b01217887
    else if h == 7 then 0xd40046579fd327524c3602e7a0c4c89e
    else if h == 8 then 0xeabf8ad240c738b5a3f7f2cef96115a1
    else if h == 9 then 0xe0ae5da49b341a55ad933230f58cb1e3
    else if h == 10 then 0x1df6e22e8266ca60c02923ab0d534e6f
    else if h == 11 then 0xd5db3745defd8e2f03ff6a726d6c5b51
    else if h == 12 then 0x8d1baf92bbddbc7f11d95c411f105ad8
    else if h == 13 then 0x0ac13188a5cd7bbd2d74d012b8e5b4b0
    else if h == 14 then 0x8969974a0c96777e65b9f109c56ec684
    else 0x18f07dec3adc4d2079ee5f3ed7cb3948
  }

  /** The entry of a byte: its high half is the row, its low half the column. */
  function Sbox(inch: octet): octet {
    ((SboxRow(inch >> 4) >> (120 - 8 * (inch as bv128 & 0x0F))) & 0xFF) as octet
  }

  /** The byte substitution that both T transforms start with. */
  function Tau(ka: word): word {
    var a := PutBE(ka);
    GetBE(Sbox(a[0]), Sbox(a[1]), Sbox(a[2]), Sbox(a[3]))
  }

  /** The linear transform of sm4Lt. */
  function L(bb: word): word { Xor(Xor(Xor3(bb, Rotl(bb, 2), Rotl(bb, 10)), Rotl(bb, 18)), Rotl(bb, 24)) }

  /** The linear transform of sm4CalciRK. */
  function LKey(bb: word): word { Xor3(bb, Rotl(bb, 13), Rotl(bb, 23)) }

  function Lt(ka: word): word { L(Tau(ka)) }

  function CalciRK(ka: word): word { LKey(Tau(ka)) }

  /** Four consecutive words of the register. */
  datatype Quad = Quad(x0: word, x1: word, x2: word, x3: word)

  /** sm4F, for any function in place of sm4Lt. */
  function F(t: word -> word, x: Quad, rk: word): word { Xor(x.x0, t(Xor(Xor3(x.x1, x.x2, x.x3), rk))) }

  function Step(t: word -> word, x: Quad, rk: word): Quad { Quad(x.x1, x.x2, x.x3, F(t, x, rk)) }

  /** One step for each round key, in order. */
  function Rounds(t: word -> word, x: Quad, keys: seq<word>): Quad {
    if keys == [] then x else Step(t, Rounds(t, x, keys[..|keys| - 1]), keys[|keys| - 1])
  }

  function Swap(x: Quad): Quad { Quad(x.x3, x.x2, x.x1, x.x0) }

  function Reverse(s: seq<word>): (r: seq<word>)
    ensures |r| == |s|
    ensures forall i :: 0 <= i < |s| ==> r[i] == s[|s| - 1 - i]
  {
    if s == [] then [] else [s[|s| - 1]] + Reverse(s[..|s| - 1])
  }

  function Load(b: seq<octet>): Quad
    requires |b| == 16
  {
    Quad(WordAt(b, 0), WordAt(b, 4), WordAt(b, 8), WordAt(b, 12))
  }

  function Store(x: Quad): (b: seq<octet>)
    ensures |b| == 16
  {
    PutBE(x.x0) + PutBE(x.x1) + PutBE(x.x2) + PutBE(x.x3)
  }

  /** One block through the rounds, the four last words written in reverse order. */
  function Cipher(t: word -> word, keys: seq<word>, b: seq<octet>): (c: seq<octet>)
    requires |b| == 16
    ensures |c| == 16
  {
    Store(Swap(Rounds(t, Load(b), keys)))
  }

  /** The key words before the first schedule step. */
  function MaskKey(k: Quad): Quad {
    Quad(Xor(k.x0, FK[0]), Xor(k.x1, FK[1]), Xor(k.x2, FK[2]), Xor(k.x3, FK[3]))
  }

  /** The schedule runs the same steps as the cipher, with CK for keys; round key i is the newest
      word after step i. */
  function RoundKeys(key: seq<octet>): (sk: seq<word>)
    requires |key| == 16
    ensures |sk| == 32
  {
    seq(32, i requires 0 <= i < 32 => Rounds(CalciRK, MaskKey(Load(key)), CK[..i + 1]).x3)
  }

  // ----- the substitution table

  function Turn(x: octet, n: bv4): octet
    requires n <= 8
  {
    (x << n) | (x >> (8 - n))
  }

  function Affine(x: octet): octet { x ^ Turn(x, 1) ^ Turn(x, 3) ^ Turn(x, 6) ^ Turn(x, 7) ^ 0xD3 }

  function AffineBack(y: octet): octet { (y ^ 0xD3) ^ Turn(y ^ 0xD3, 2) ^ Turn(y ^ 0xD3, 7) }

  /** Multiplication by x in the field of 256 elements with polynomial x^8+x^7+x^6+x^5+x^4+x^2+1. */
  function Double(a: octet): octet { (a << 1) ^ if a & 0x80 != 0 then 0xF5 else 0 }

  function Times(a: octet, b: octet): octet {
    var a2 := Double(a);
    var a4 := Double(a2);
    var a8 := Double(a4);
    var a16 := Double(a8);
    var a32 := Double(a16);
    var a64 := Double(a32);
    (if b & 0x01 != 0 then a else 0) ^ (if b & 0x02 != 0 then a2 else 0)
    ^ (if b & 0x04 != 0 then a4 else 0) ^ (if b & 0x08 != 0 then a8 else 0)
    ^ (if b & 0x10 != 0 then a16 else 0) ^ (if b & 0x20 != 0 then a32 else 0)
    ^ (if b & 0x40 != 0 then a64 else 0) ^ (if b & 0x80 != 0 then Double(a64) else 0)
  }

  lemma AffineInverted(x: octet)
    ensures Affine(AffineBack(x)) == x && AffineBack(Affine(x)) == x
  {
  }

  /** The whole table by a law that does not mention it: between two copies of one affine map it takes the
      inverse in that field, and 0 to 0. */
  lemma SboxInverts(x: octet)
    ensures var u, v := Affine(x), AffineBack(Sbox(x)); if u == 0 then v == 0 else Times(u, v) == 1
  {
  }

  // ----- the linear transforms and the constants

  /** L distributes over xor, commutes with rotation, and takes 1 to 0x01040405; there is only one such
      function. */
  lemma LIsLinear(x: word, y: word)
    ensures L(Xor(x, y)) == Xor(L(x), L(y))
    ensures L(Rotl(x, 1)) == Rotl(L(x), 1)
    ensures L(1) == 0x01040405
  {
    LOfOne();
    hide Xor, Rotl;
    var x2, x10, x18, x24 := Rotl(x, 2), Rotl(x, 10), Rotl(x, 18), Rotl(x, 24);
    var y2, y10, y18, y24 := Rotl(y, 2), Rotl(y, 10), Rotl(y, 18), Rotl(y, 24);
    By2(x, y);
    By10(x, y);
    By18(x, y);
    By24(x, y);
    XorShuffle(x, y, x2, y2);
    XorShuffle(Xor(x, x2), Xor(y, y2), x10, y10);
    XorShuffle(Xor3(x, x2, x10), Xor3(y, y2, y10), x18, y18);
    XorShuffle(Xor(Xor3(x, x2, x10), x18), Xor(Xor3(y, y2, y10), y18), x24, y24);
    By1(x, x2);
    By1(Xor(x, x2), x10);
    By1(Xor3(x, x2, x10), x18);
    By1(Xor(Xor3(x, x2, x10), x18), x24);
  }

  lemma LOfOne()
    ensures L(1) == 0x01040405 && LKey(1) == 0x00802001
  {
  }

  /** The same for the key schedule, with 0x00802001. */
  lemma LKeyIsLinear(x: word, y: word)
    ensures LKey(Xor(x, y)) == Xor(LKey(x), LKey(y))
    ensures LKey(Rotl(x, 1)) == Rotl(LKey(x), 1)
    ensures LKey(1) == 0x00802001
  {
    LOfOne();
    hide Xor, Rotl;
    var x13, x23, y13, y23 := Rotl(x, 13), Rotl(x, 23), Rotl(y, 13), Rotl(y, 23);
    By13(x, y);
    By23(x, y);
    XorShuffle(x, y, x13, y13);
    XorShuffle(Xor(x, x13), Xor(y, y13), x23, y23);
    By1(x, x13);
    By1(Xor(x, x13), x23);
  }

  /** The bytes of w are 7 times the four numbers from 4 * i on, mod 256. */
  predicate CkBytes(w: word, i: nat) {
    && PutBE(w)[0] as nat == 7 * (4 * i) % 256 && PutBE(w)[1] as nat == 7 * (4 * i + 1) % 256
    && PutBE(w)[2] as nat == 7 * (4 * i + 2) % 256 && PutBE(w)[3] as nat == 7 * (4 * i + 3) % 256
  }

  lemma Ck0(i: nat)
    requires 0 <= i < 4
    ensures CkBytes(CK[i], i)
  {
    if i == 0 {} else if i == 1 {} else if i == 2 {} else {}
  }

  lemma Ck1(i: nat)
    requires 4 <= i < 8
    ensures CkBytes(CK[i], i)
  {
    if i == 4 {} else if i == 5 {} else if i == 6 {} else {}
  }

  lemma Ck2(i: nat)
    requires 8 <= i < 12
    ensures CkBytes(CK[i], i)
  {
    if i == 8 {} else if i == 9 {} else if i == 10 {} else {}
  }

  lemma Ck3(i: nat)
    requires 12 <= i < 16
    ensures CkBytes(CK[i], i)
  {
    if i == 12 {} else if i == 13 {} else if i == 14 {} else {}
  }

  lemma Ck4(i: nat)
    requires 16 <= i < 20
    ensures CkBytes(CK[i], i)
  {
    if i == 16 {} else if i == 17 {} else if i == 18 {} else {}
  }

  lemma Ck5(i: nat)
    requires 20 <= i < 24
    ensures CkBytes(CK[i], i)
  {
    if i == 20 {} else if i == 21 {} else if i == 22 {} else {}
  }

  lemma Ck6(i: nat)
    requires 24 <= i < 28
    ensures CkBytes(CK[i], i)
  {
    if i == 24 {} else if i == 25 {} else if i == 26 {} else {}
  }

  lemma Ck7(i: nat)
    requires 28 <= i < 32
    ensures CkBytes(CK[i], i)
  {
    if i == 28 {} else if i == 29 {} else if i == 30 {} else {}
  }

  /** Every entry of CK follows the formula of section 7.3 of GB/T 32907-2016. */
  lemma CkFollows(i: nat)
    requires i < 32
    ensures CkBytes(CK[i], i)
  {
    hide CkBytes;
    match i / 4
    case 0 => Ck0(i);
    case 1 => Ck1(i);
    case 2 => Ck2(i);
    case 3 => Ck3(i);
    case 4 => Ck4(i);
    case 5 => Ck5(i);
    case 6 => Ck6(i);
    case _ => Ck7(i);
  }

  // ----- inversion

  /** The first key is applied first. */
  lemma {:induction false} RoundsCons(t: word -> word, x: Quad, k: word, keys: seq<word>)
    ensures Rounds(t, x, [k] + keys) == Rounds(t, Step(t, x, k), keys)
    decreases |keys|
  {
    var all := [k] + keys;
    if keys == [] {
      assert all[..0] == [];
      assert Rounds(t, x, []) == x;
    } else {
      assert all[..|all| - 1] == [k] + keys[..|keys| - 1];
      RoundsCons(t, x, k, keys[..|keys| - 1]);
    }
  }

  /** A step on the swapped output of a step with the same key gives the swapped input. */
  lemma StepUndone(t: word -> word, x: Quad, k: word)
    ensures Step(t, Swap(Step(t, x, k)), k) == Swap(x)
  {
    hide Xor;
    Xor3Reversed(x.x1, x.x2, x.x3);
    XorCancels(x.x0, t(Xor(Xor3(x.x1, x.x2, x.x3), k)));
  }

  lemma Xor3Reversed(a: word, b: word, c: word)
    ensures Xor3(c, b, a) == Xor3(a, b, c)
  {
    hide Xor;
    XorCommutes(c, b);
    XorCommutes(Xor(b, c), a);
    XorAssociates(a, b, c);
  }

  /** Decryption undoes encryption: for every round function, every number of rounds, every round
      keys and every block, the reversed keys on the swapped output give the swapped block. */
  lemma {:induction false} RoundsInverted(t: word -> word, x: Quad, keys: seq<word>)
    ensures Rounds(t, Swap(Rounds(t, x, keys)), Reverse(keys)) == Swap(x)
    decreases |keys|
  {
    hide Step, Swap;
    if keys == [] {
      assert Reverse(keys) == [];
    } else {
      var init, k := keys[..|keys| - 1], keys[|keys| - 1];
      var z := Rounds(t, x, init);
      RoundsCons(t, Swap(Step(t, z, k)), k, Reverse(init));
      StepUndone(t, z, k);
      RoundsInverted(t, x, init);
    }
  }

  lemma {:induction false} ReverseTwice(s: seq<word>)
    ensures Reverse(Reverse(s)) == s
  {
    var r := Reverse(Reverse(s));
    assert forall i :: 0 <= i < |s| ==> r[i] == s[i];
  }

  lemma LoadStore(x: Quad)
    ensures Load(Store(x)) == x
  {
    hide PutBE, GetBE;
    GetPut(x.x0);
    GetPut(x.x1);
    GetPut(x.x2);
    GetPut(x.x3);
  }

  lemma StoreLoad(b: seq<octet>)
    requires |b| == 16
    ensures Store(Load(b)) == b
  {
    hide PutBE, GetBE;
    PutGet(b[0], b[1], b[2], b[3]);
    PutGet(b[4], b[5], b[6], b[7]);
    PutGet(b[8], b[9], b[10], b[11]);
    PutGet(b[12], b[13], b[14], b[15]);
  }

  /** Bytes in, bytes out: the cipher under the reversed keys undoes the cipher, in both orders. */
  lemma CipherInverted(t: word -> word, keys: seq<word>, b: seq<octet>)
    requires |b| == 16
    ensures Cipher(t, Reverse(keys), Cipher(t, keys, b)) == b
    ensures Cipher(t, keys, Cipher(t, Reverse(keys), b)) == b
  {
    hide Rounds, Load, Store, Reverse;
    OneWay(t, keys, b);
    OneWay(t, Reverse(keys), b);
    ReverseTwice(keys);
  }

  lemma OneWay(t: word -> word, keys: seq<word>, b: seq<octet>)
    requires |b| == 16
    ensures Cipher(t, Reverse(keys), Cipher(t, keys, b)) == b
  {
    hide Rounds, Load, Store, Reverse;
    var x := Load(b);
    LoadStore(Swap(Rounds(t, x, keys)));
    RoundsInverted(t, x, keys);
    StoreLoad(b);
  }

  // ----- the key schedule

  /** Masking with FK is undone by masking again. */
  lemma MaskTwice(k: Quad)
    ensures MaskKey(MaskKey(k)) == k
  {
    hide Xor;
    XorCancels(k.x0, FK[0]);
    XorCancels(k.x1, FK[1]);
    XorCancels(k.x2, FK[2]);
    XorCancels(k.x3, FK[3]);
  }

  /** After n >= 4 steps the register holds the newest words of the last four steps. */
  lemma RegisterIsLastFour(t: word -> word, x: Quad, keys: seq<word>)
    requires |keys| >= 4
    ensures var n := |keys|;
            Rounds(t, x, keys) == Quad(Rounds(t, x, keys[..n - 3]).x3, Rounds(t, x, keys[..n - 2]).x3,
                                       Rounds(t, x, keys[..n - 1]).x3, Rounds(t, x, keys[..n]).x3)
  {
    hide F;
    var n := |keys|;
    assert keys[..n] == keys && keys[..n - 1][..n - 2] == keys[..n - 2] && keys[..n - 2][..n - 3] == keys[..n - 3];
    var a := Rounds(t, x, keys[..n - 3]);
    var b := Rounds(t, x, keys[..n - 2]);
    var c := Rounds(t, x, keys[..n - 1]);
    assert b == Step(t, a, keys[n - 3]);
    assert c == Step(t, b, keys[n - 2]);
  }

  /** The key that ends in the given last four round keys: the schedule run backwards. */
  function KeyFromLastFour(k28: word, k29: word, k30: word, k31: word): seq<octet> {
    Store(MaskKey(Swap(Rounds(CalciRK, Swap(Quad(k28, k29, k30, k31)), Reverse(CK)))))
  }

  /** The last four round keys give back the whole key, and with it every other round key. */
  lemma LastFourGiveKey(key: seq<octet>)
    requires |key| == 16
    ensures var sk := RoundKeys(key); KeyFromLastFour(sk[28], sk[29], sk[30], sk[31]) == key
  {
    hide Rounds, Load, Store, MaskKey, Reverse, CalciRK;
    var x := MaskKey(Load(key));
    var sk := RoundKeys(key);
    assert CK[..32] == CK;
    RegisterIsLastFour(CalciRK, x, CK);
    RoundsInverted(CalciRK, x, CK);
    MaskTwice(Load(key));
    StoreLoad(key);
  }

  /** The schedule is injective already in its last four words. */
  lemma ScheduleInjective(k1: seq<octet>, k2: seq<octet>)
    requires |k1| == 16 && |k2| == 16
    requires RoundKeys(k1)[28..] == RoundKeys(k2)[28..]
    ensures k1 == k2
  {
    hide RoundKeys, KeyFromLastFour;
    var s1, s2 := RoundKeys(k1), RoundKeys(k2);
    assert forall i :: 28 <= i < 32 ==> s1[i] == s1[28..][i - 28] && s2[i] == s2[28..][i - 28];
    LastFourGiveKey(k1);
    LastFourGiveKey(k2);
  }

  // ----- the code

  /** sm4_setkey. */
  method SetKeyEnc(sk: array<word>, key: array<octet>)
    requires sk.Length == 32 && key.Length >= 16
    modifies sk
    ensures sk[..] == RoundKeys(key[..16])
  {
    hide Xor, CalciRK, GetBE, Rounds;
    ghost var x := MaskKey(Load(key[..16]));
    var k := new word[36];
    k[0] := Xor(Get(key, 0), FK[0]);
    k[1] := Xor(Get(key, 4), FK[1]);
    k[2] := Xor(Get(key, 8), FK[2]);
    k[3] := Xor(Get(key, 12), FK[3]);
    assert CK[..32] == CK;
    ScheduleLoop(sk, k, CK, x);
  }

  /** The loop of sm4_setkey, for any table in place of CK. */
  method ScheduleLoop(sk: array<word>, k: array<word>, ck: seq<word>, ghost x: Quad)
    requires sk.Length == 32 && k.Length == 36 && |ck| == 32 && sk != k
    requires Quad(k[0], k[1], k[2], k[3]) == x
    modifies sk, k
    ensures forall j :: 0 <= j < 32 ==> sk[j] == Rounds(CalciRK, x, ck[..j + 1]).x3
  {
    hide Xor, CalciRK, Rounds;
    assert Rounds(CalciRK, x, ck[..0]) == x by { RoundsNone(CalciRK, x); }
    for i := 0 to 32
      invariant Quad(k[i], k[i + 1], k[i + 2], k[i + 3]) == Rounds(CalciRK, x, ck[..i])
      invariant forall j :: 0 <= j < i ==> sk[j] == Rounds(CalciRK, x, ck[..j + 1]).x3
    {
      k[i + 4] := Xor(k[i], CalciRK(Xor(Xor3(k[i + 1], k[i + 2], k[i + 3]), ck[i])));
      sk[i] := k[i + 4];
      RoundsSnoc(CalciRK, x, ck, i);
    }
  }

  lemma RoundsNone(t: word -> word, x: Quad)
    ensures Rounds(t, x, []) == x
  {
  }

  lemma RoundsSnoc(t: word -> word, x: Quad, keys: seq<word>, i: nat)
    requires i < |keys|
    ensures Rounds(t, x, keys[..i + 1]) == Step(t, Rounds(t, x, keys[..i]), keys[i])
  {
    assert keys[..i + 1][..i] == keys[..i];
  }

  /** sm4_one_round: `input` and `output` may be the same array. */
  method OneRound(sk: array<word>, input: array<octet>, output: array<octet>)
    requires sk.Length == 32 && input.Length >= 16 && output.Length >= 16
    modifies output
    ensures output[..16] == Cipher(Lt, sk[..], old(input[..16]))
    ensures output[16..] == old(output[16..])
  {
    hide Xor, Lt, GetBE, PutBE, Rounds;
    ghost var x := Load(input[..16]);
    var buf := new word[36];
    buf[0] := Get(input, 0);
    buf[1] := Get(input, 4);
    buf[2] := Get(input, 8);
    buf[3] := Get(input, 12);
    RoundsNone(Lt, x);
    assert sk[..0] == [];
    var i := 0;
    while i < 32
      invariant 0 <= i <= 32 && output[..] == old(output[..])
      invariant Quad(buf[i], buf[i + 1], buf[i + 2], buf[i + 3]) == Rounds(Lt, x, sk[..i])
    {
      buf[i + 4] := Xor(buf[i], Lt(Xor(Xor3(buf[i + 1], buf[i + 2], buf[i + 3]), sk[i])));
      RoundsSnoc(Lt, x, sk[..], i);
      i := i + 1;
    }
    assert sk[..32] == sk[..];
    PutQuad(Quad(buf[35], buf[34], buf[33], buf[32]), output);
  }

  method PutQuad(x: Quad, output: array<octet>)
    requires output.Length >= 16
    modifies output
    ensures output[..16] == Store(x)
    ensures forall k :: 16 <= k < output.Length ==> output[k] == old(output[k])
  {
    hide PutBE;
    Put(x.x0, output, 0);
    Put(x.x1, output, 4);
    Put(x.x2, output, 8);
    Put(x.x3, output, 12);
  }

  /** The loop of sm4_setkey_vpn: swapping the ends inwards reverses the array in place. */
  method ReverseInPlace(a: array<word>)
    requires a.Length == 32
    modifies a
    ensures a[..] == Reverse(old(a[..]))
  {
    for i := 0 to 16
      invariant forall k :: 0 <= k < 32 ==>
                  a[k] == if k < i || 31 - k < i then old(a[31 - k]) else old(a[k])
    {
      a[i], a[31 - i] := a[31 - i], a[i];
    }
    assert forall k :: 0 <= k < 32 ==> a[..][k] == Reverse(old(a[..]))[k];
  }

  class Context {
    const skEnc: array<word>
    const skDec: array<word>

    ghost predicate Shape() { skEnc.Length == 32 && skDec.Length == 32 && skEnc != skDec }

    /** The context holds the schedule of `key`, forwards and backwards. */
    ghost predicate Keyed(key: seq<octet>)
      reads skEnc, skDec
      requires |key| == 16
    {
      Shape() && skEnc[..] == RoundKeys(key) && skDec[..] == Reverse(RoundKeys(key))
    }

    constructor ()
      ensures Shape() && fresh(skEnc) && fresh(skDec)
    {
      skEnc := new word[32];
      skDec := new word[32];
    }

    /** A key of any other length is refused and changes nothing. */
    method SetKey(key: array<octet>, keyLen: nat) returns (ret: int)
      requires Shape() && keyLen <= key.Length
      modifies skEnc, skDec
      ensures ret == if keyLen == 16 then 0 else -1
      ensures keyLen == 16 ==> Keyed(key[..16])
      ensures keyLen != 16 ==> skEnc[..] == old(skEnc[..]) && skDec[..] == old(skDec[..])
    {
      hide RoundKeys, Reverse;
      if keyLen != 16 {
        return -1;
      }
      SetKeyEnc(skEnc, key);
      ghost var rk := RoundKeys(key[..16]);
      forall k | 0 <= k < 32 {
        skDec[k] := skEnc[k];
      }
      assert skDec[..] == rk;
      ReverseInPlace(skDec);
      assert skEnc[..] == rk;
      assert skDec[..] == Reverse(rk);
      assert key[..16] == old(key[..16]);
      ret := 0;
    }

    method Encrypt(output: array<octet>, input: array<octet>)
      requires Shape() && input.Length >= 16 && output.Length >= 16
      modifies output
      ensures output[..16] == Cipher(Lt, skEnc[..], old(input[..16])) && output[16..] == old(output[16..])
    {
      OneRound(skEnc, input, output);
    }

    method Decrypt(output: array<octet>, input: array<octet>)
      requires Shape() && input.Length >= 16 && output.Length >= 16
      modifies output
      ensures output[..16] == Cipher(Lt, skDec[..], old(input[..16])) && output[16..] == old(output[16..])
    {
      OneRound(skDec, input, output);
    }
  }

  /** Under any key, encrypting a block in place and decrypting it in place restores it, and so does
      the other order. */
  method InPlaceRoundTrip(ctx: Context, key: array<octet>, a: array<octet>, decryptFirst: bool)
    requires ctx.Shape() && key.Length == 16 && a.Length == 16 && a != key
    modifies ctx.skEnc, ctx.skDec, a
    ensures a[..] == old(a[..])
  {
    hide Cipher, Lt, RoundKeys, Reverse;
    var _ := ctx.SetKey(key, 16);
    CipherInverted(Lt, RoundKeys(key[..16]), a[..16]);
    if decryptFirst {
      ctx.Decrypt(a, a);
      ctx.Encrypt(a, a);
    } else {
      ctx.Encrypt(a, a);
      ctx.Decrypt(a, a);
    }
    assert a[..] == a[..16];
  }
}
