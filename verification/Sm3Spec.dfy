/** The hash of GM/T 0004-2012 as pure functions: padding (5.2), message expansion (5.3.2),
    compression (5.3.3) and the iteration over blocks (5.3.1). */
module Sm3Spec {
  import opened Words

  const IV: seq<word> := [
    0x7380166F, 0x4914B2B9, 0x172442D7, 0xDA8A0600, 0xA96F30BC, 0x163138AA, 0xE38DEE4D, 0xB0FB0E4E
  ]

  type Chain = v: seq<word> | |v| == 8 witness IV

  type Block = b: seq<octet> | |b| == 64 witness seq(64, _ => 0)

  function T(j: nat): word { if j < 16 then 0x79CC4519 else 0x7A879D8A }

  function FF0(x: word, y: word, z: word): word { Xor3(x, y, z) }

  function FF1(x: word, y: word, z: word): word { Or(Or(And(x, y), And(x, z)), And(y, z)) }

  function GG0(x: word, y: word, z: word): word { Xor3(x, y, z) }

  function GG1(x: word, y: word, z: word): word { Or(And(x, y), And(Not(x), z)) }

  function FF(j: nat, x: word, y: word, z: word): word { if j < 16 then FF0(x, y, z) else FF1(x, y, z) }

  function GG(j: nat, x: word, y: word, z: word): word { if j < 16 then GG0(x, y, z) else GG1(x, y, z) }

  function P0(x: word): word { Xor3(x, Rotl(x, 9), Rotl(x, 17)) }

  function P1(x: word): word { Xor3(x, Rotl(x, 15), Rotl(x, 23)) }

  /** One expanded word from the five it depends on (5.3.2 b). */
  function ExpandWord(w16: word, w13: word, w9: word, w6: word, w3: word): word {
    Xor3(P1(Xor3(w16, w9, Rotl(w3, 15))), Rotl(w13, 7), w6)
  }

  /** W_0 .. W_67 of a block. */
  function W(b: Block, j: nat): word {
    if j < 16 then WordAt(b, 4 * j)
    else ExpandWord(W(b, j - 16), W(b, j - 13), W(b, j - 9), W(b, j - 6), W(b, j - 3))
  }

  /** W'_0 .. W'_63 of a block. */
  function W1(b: Block, j: nat): word { Xor(W(b, j), W(b, j + 4)) }

  /** The eight registers A..H. */
  datatype Regs = Regs(a: word, b: word, c: word, d: word, e: word, f: word, g: word, h: word)

  function Load(v: Chain): Regs { Regs(v[0], v[1], v[2], v[3], v[4], v[5], v[6], v[7]) }

  /** Round j of the compression function, with W_j and W'_j. */
  function Round(r: Regs, j: nat, w: word, w1: word): Regs {
    var ss1 := Rotl(Add3(Rotl(r.a, 12), r.e, Rotl(T(j), Count(j))), 7);
    var ss2 := Xor(ss1, Rotl(r.a, 12));
    var tt1 := Add(Add3(FF(j, r.a, r.b, r.c), r.d, ss2), w1);
    var tt2 := Add(Add3(GG(j, r.e, r.f, r.g), r.h, ss1), w);
    Regs(tt1, r.a, Rotl(r.b, 9), r.c, P0(tt2), r.e, Rotl(r.f, 19), r.g)
  }

  /** W_j and W'_j for the 64 rounds. */
  function Schedule(b: Block): seq<(word, word)> { seq(64, j requires 0 <= j => (W(b, j), W1(b, j))) }

  /** The registers after one round for each entry of the schedule. */
  function Rounds(r: Regs, schedule: seq<(word, word)>): Regs {
    if |schedule| == 0 then r
    else
      var j := |schedule| - 1;
      Round(Rounds(r, schedule[..j]), j, schedule[j].0, schedule[j].1)
  }

  function XorRegs(r: Regs, v: Chain): Chain {
    [Xor(v[0], r.a), Xor(v[1], r.b), Xor(v[2], r.c), Xor(v[3], r.d),
     Xor(v[4], r.e), Xor(v[5], r.f), Xor(v[6], r.g), Xor(v[7], r.h)]
  }

  /** The compression function CF. */
  function Compress(v: Chain, b: Block): Chain { XorRegs(Rounds(Load(v), Schedule(b)), v) }

  /** A compression function folded over the complete blocks of m; a tail of fewer than 64 bytes
      is ignored. */
  function Absorb(cf: (Chain, Block) -> Chain, v: Chain, m: seq<octet>): Chain
    decreases |m|
  {
    if |m| < 64 then v else Absorb(cf, cf(v, m[..64]), m[64..])
  }

  /** The bytes of m that do not yet fill a block. */
  function Pending(m: seq<octet>): (tail: seq<octet>)
    ensures |tail| == |m| % 64
  {
    m[|m| - |m| % 64..]
  }

  /** The number of zero bytes between the byte 0x80 and the length field: the least k making the
      padded message a whole number of blocks. */
  function ZeroCount(n: nat): (k: nat)
    ensures k < 64 && (n + 1 + k + 8) % 64 == 0
  {
    (119 - n % 64) % 64
  }

  function Zeros(n: nat): seq<octet> { seq(n, _ => 0 as octet) }

  /** The 64-bit big-endian bit length of an n-byte message, mod 2^64. */
  function LengthField(n: nat): (bytes: seq<octet>)
    ensures |bytes| == 8
  {
    var bits := 8 * n % 0x1_0000_0000_0000_0000;
    PutBE(ToWord(bits / 0x1_0000_0000)) + PutBE(ToWord(bits % 0x1_0000_0000))
  }

  /** Section 5.2: the byte 0x80, the zeros, then the length. */
  function Padding(n: nat): seq<octet> { [0x80] + Zeros(ZeroCount(n)) + LengthField(n) }

  function Bytes(v: seq<word>): seq<octet> {
    if v == [] then [] else PutBE(v[0]) + Bytes(v[1..])
  }

  function Digest(m: seq<octet>): seq<octet> { Bytes(Absorb(Compress, IV, m + Padding(|m|))) }

  function Flatten(chunks: seq<seq<octet>>): seq<octet> {
    if chunks == [] then [] else chunks[0] + Flatten(chunks[1..])
  }

  // ----- laws of the fold

  /** Whole blocks can be absorbed first; the rest continues from the resulting chain value. */
  lemma {:induction false} AbsorbSplit(cf: (Chain, Block) -> Chain, v: Chain, a: seq<octet>, b: seq<octet>)
    requires |a| % 64 == 0
    ensures Absorb(cf, v, a + b) == Absorb(cf, Absorb(cf, v, a), b)
    decreases |a|
  {
    if a == [] {
      assert a + b == b;
    } else {
      assert (a + b)[..64] == a[..64] && (a + b)[64..] == a[64..] + b;
      AbsorbSplit(cf, cf(v, a[..64]), a[64..], b);
    }
  }

  /** The fold ignores the pending bytes. */
  lemma {:induction false} AbsorbWhole(cf: (Chain, Block) -> Chain, v: Chain, m: seq<octet>, tail: seq<octet>)
    requires |m| % 64 == 0 && |tail| < 64
    ensures Absorb(cf, v, m + tail) == Absorb(cf, v, m)
    ensures Pending(m + tail) == tail
  {
    AbsorbSplit(cf, v, m, tail);
  }

  /** One more block extends the fold by one compression. */
  lemma AbsorbBlock(cf: (Chain, Block) -> Chain, v: Chain, a: seq<octet>, b: Block)
    requires |a| % 64 == 0
    ensures Absorb(cf, v, a + b) == cf(Absorb(cf, v, a), b)
    ensures |a + b| % 64 == 0
  {
    AbsorbSplit(cf, v, a, b);
    assert b[..64] == b;
  }

  /** Filling the pending bytes up to a block compresses exactly that block. */
  lemma BlockFilled(cf: (Chain, Block) -> Chain, v: Chain, m: seq<octet>, fill: seq<octet>)
    requires |m| % 64 + |fill| == 64
    ensures Absorb(cf, v, m + fill) == cf(Absorb(cf, v, m), Pending(m) + fill)
    ensures |m + fill| % 64 == 0
  {
    hide Absorb;
    var whole := m[..|m| - |m| % 64];
    assert m == whole + Pending(m);
    AbsorbWhole(cf, v, whole, Pending(m));
    AbsorbBlock(cf, v, whole, Pending(m) + fill);
    assert whole + (Pending(m) + fill) == m + fill;
  }

  lemma WholePlus(whole: seq<octet>, tail: seq<octet>)
    requires |whole| % 64 == 0 && |tail| < 64
    ensures |whole + tail| % 64 == |tail|
  {
  }

  /** A tail that does not complete a block only lengthens the pending bytes. */
  lemma TailKept(cf: (Chain, Block) -> Chain, v: Chain, m: seq<octet>, tail: seq<octet>)
    requires |m| % 64 + |tail| < 64
    ensures Absorb(cf, v, m + tail) == Absorb(cf, v, m)
    ensures Pending(m + tail) == Pending(m) + tail
    ensures |m + tail| % 64 == |m| % 64 + |tail|
  {
    hide Absorb;
    var whole := m[..|m| - |m| % 64];
    assert m == whole + Pending(m);
    var rest := Pending(m);
    AbsorbWhole(cf, v, whole, rest);
    AbsorbWhole(cf, v, whole, rest + tail);
    assert whole + (rest + tail) == m + tail;
    assert |rest + tail| == |m| % 64 + |tail|;
    hide Pending;
    WholePlus(whole, rest + tail);
  }

  /** The zero count is the only one below 64, hence the least one, that completes the last block. */
  lemma ZeroCountMinimal(n: nat, k: nat)
    requires (n + 1 + k + 8) % 64 == 0
    ensures ZeroCount(n) <= k
  {
  }

  /** A padded message is a whole number of blocks, so no byte of it is left pending. */
  lemma PaddedWhole(m: seq<octet>)
    ensures |m + Padding(|m|)| % 64 == 0
    ensures 9 <= |Padding(|m|)| <= 72
    ensures m <= m + Padding(|m|)
  {
  }

  /** The eight bytes of the length field, most significant first, are the bit length mod 2^64. */
  lemma LengthFieldNumber(n: nat)
    ensures Number(LengthField(n)) == 8 * n % 0x1_0000_0000_0000_0000
  {
    hide PutBE, ToWord, Number;
    var bits := 8 * n % 0x1_0000_0000_0000_0000;
    WordNumber(bits / 0x1_0000_0000);
    WordNumber(bits % 0x1_0000_0000);
    NumberConcat4(PutBE(ToWord(bits / 0x1_0000_0000)), PutBE(ToWord(bits % 0x1_0000_0000)));
  }

  /** They are the true bit length exactly for messages under 2^61 bytes. */
  lemma LengthFieldExact(n: nat)
    ensures Number(LengthField(n)) == 8 * n <==> n < 0x2000_0000_0000_0000
  {
    hide LengthField, Number;
    LengthFieldNumber(n);
  }

  // ----- the functions of section 5.3 by their laws

  /** The first expanded words by the message words they come from: W_16 from words 0, 3, 7, 10 and 13, W'_0
      from words 0 and 4; 64 rounds. */
  lemma ScheduleByNumber(b: Block)
    ensures W(b, 0) == WordAt(b, 0) && W(b, 15) == WordAt(b, 60)
    ensures W(b, 16) == ExpandWord(WordAt(b, 0), WordAt(b, 12), WordAt(b, 28), WordAt(b, 40), WordAt(b, 52))
    ensures W1(b, 0) == Xor(WordAt(b, 0), WordAt(b, 16))
    ensures |Schedule(b)| == 64 && Schedule(b)[0] == (W(b, 0), W1(b, 0)) && Schedule(b)[63] == (W(b, 63), W1(b, 63))
  {
    hide ExpandWord, WordAt, Xor;
  }

  /** P0 distributes over xor, commutes with rotation, and takes 1 to 0x00020201; there is only one such
      function. */
  lemma P0IsLinear(x: word, y: word)
    ensures P0(Xor(x, y)) == Xor(P0(x), P0(y))
    ensures P0(Rotl(x, 1)) == Rotl(P0(x), 1)
    ensures P0(1) == 0x00020201
  {
    POfOne();
    hide Xor, Rotl;
    var x9, x17, y9, y17 := Rotl(x, 9), Rotl(x, 17), Rotl(y, 9), Rotl(y, 17);
    By9(x, y);
    By17(x, y);
    XorShuffle(x, y, x9, y9);
    XorShuffle(Xor(x, x9), Xor(y, y9), x17, y17);
    By1(x, x9);
    By1(Xor(x, x9), x17);
  }

  /** The same for P1, with 0x00808001. */
  lemma P1IsLinear(x: word, y: word)
    ensures P1(Xor(x, y)) == Xor(P1(x), P1(y))
    ensures P1(Rotl(x, 1)) == Rotl(P1(x), 1)
    ensures P1(1) == 0x00808001
  {
    POfOne();
    hide Xor, Rotl;
    var x15, x23, y15, y23 := Rotl(x, 15), Rotl(x, 23), Rotl(y, 15), Rotl(y, 23);
    By15(x, y);
    By23(x, y);
    XorShuffle(x, y, x15, y15);
    XorShuffle(Xor(x, x15), Xor(y, y15), x23, y23);
    By1(x, x15);
    By1(Xor(x, x15), x23);
  }

  lemma POfOne()
    ensures P0(1) == 0x00020201 && P1(1) == 0x00808001
  {
  }

  /** From round 16 on FF is the majority of its operands, so that two equal ones decide, and GG lets the
      first choose between the others; before that both are parities. */
  lemma BooleanFunctions(j: nat, x: word, y: word, z: word)
    ensures j < 16 ==> FF(j, x, y, z) == Xor3(z, y, x) && GG(j, x, y, z) == Xor3(z, y, x)
    ensures j >= 16 ==> FF(j, x, x, z) == x && FF(j, x, z, x) == x && FF(j, z, x, x) == x
    ensures j >= 16 ==> GG(j, 0xFFFFFFFF, y, z) == y && GG(j, 0, y, z) == z && GG(j, x, y, y) == y
  {
    Parity(x, y, z);
    Majority(x, z);
    Choice(x, y, z);
    hide FF0, FF1, GG0, GG1, Xor;
  }

  lemma Parity(x: word, y: word, z: word)
    ensures FF0(x, y, z) == Xor3(z, y, x) && GG0(x, y, z) == Xor3(z, y, x)
  {
    hide Xor;
    XorCommutes(Xor(x, y), z);
    XorCommutes(x, y);
    XorAssociates(z, y, x);
  }

  lemma Majority(x: word, z: word)
    ensures FF1(x, x, z) == x && FF1(x, z, x) == x && FF1(z, x, x) == x
  {
    hide And, Or;
    AndLaws(x, z);
    OrAbsorbs(x, z);
    OrSame(And(x, z));
    OrCommutes(And(x, z), x);
  }

  lemma AndLaws(x: word, z: word)
    ensures And(x, x) == x && And(z, x) == And(x, z)
  {
  }

  lemma OrAbsorbs(x: word, z: word)
    ensures Or(x, And(x, z)) == x
  {
  }

  lemma OrSame(x: word)
    ensures Or(x, x) == x
  {
  }

  lemma OrCommutes(x: word, y: word)
    ensures Or(x, y) == Or(y, x)
  {
  }

  lemma Choice(x: word, y: word, z: word)
    ensures GG1(0xFFFFFFFF, y, z) == y && GG1(0, y, z) == z && GG1(x, y, y) == y
  {
  }

  /** The padding is a byte 0x80, zeros, and eight bytes that are the bit length. */
  lemma PaddingShape(n: nat)
    ensures var p := Padding(n);
            && |p| >= 9 && p[0] == 0x80
            && (forall k :: 1 <= k < |p| - 8 ==> p[k] == 0)
            && Number(p[|p| - 8..]) == 8 * n % 0x1_0000_0000_0000_0000
  {
    hide LengthField, Number;
    LengthFieldNumber(n);
    var p := Padding(n);
    assert p[|p| - 8..] == LengthField(n);
  }
}
