/** Single steps of hashing "abc", the first example of appendix A of GM/T 0004-2012: they fix the constants,
    rotation counts and operand order of Sm3Spec. */
module Sm3Example {
  import opened Words
  import opened Sm3Spec

  lemma FirstWord()
    ensures WordAt([0x61, 0x62, 0x63, 0x80], 0) == 0x61626380
    ensures PutBE(0x61626380) == [0x61, 0x62, 0x63, 0x80]
  {
  }

  /** W_40 from the five words it depends on. */
  lemma LaterWord()
    ensures ExpandWord(0x2C6FA1F9, 0x0001801E, 0xB2D12F1B, 0x055D68BE, 0xD9023DBF) == 0x050DF55C
  {
  }

  /** A round from its intermediate values. */
  lemma RoundFrom(r: Regs, j: nat, n: bv6, w: word, w1: word, ss1: word, tt1: word, tt2: word)
    requires n <= 32 && Count(j) == n && ss1 == Rotl(Add3(Rotl(r.a, 12), r.e, Rotl(T(j), n)), 7)
    requires tt1 == Add(Add3(FF(j, r.a, r.b, r.c), r.d, Xor(ss1, Rotl(r.a, 12))), w1)
    requires tt2 == Add(Add3(GG(j, r.e, r.f, r.g), r.h, ss1), w)
    ensures Round(r, j, w, w1) == Regs(tt1, r.a, Rotl(r.b, 9), r.c, P0(tt2), r.e, Rotl(r.f, 19), r.g)
  {
    hide Rotl, Count, T, FF, GG, P0, Xor, Add;
  }

  lemma InitialValue()
    ensures Load(IV) == Regs(0x7380166F, 0x4914B2B9, 0x172442D7, 0xDA8A0600,
                             0xA96F30BC, 0x163138AA, 0xE38DEE4D, 0xB0FB0E4E)
  {
  }

  /** The first round, from the initial value. */
  lemma Round0()
    ensures Round(Regs(0x7380166F, 0x4914B2B9, 0x172442D7, 0xDA8A0600,
                       0xA96F30BC, 0x163138AA, 0xE38DEE4D, 0xB0FB0E4E), 0, 0x61626380, 0x61626380)
            == Regs(0xB9EDC12B, 0x7380166F, 0x29657292, 0x172442D7,
                    0xB2AD29F4, 0xA96F30BC, 0xC550B189, 0xE38DEE4D)
  {
    hide Round;
    var r := Regs(0x7380166F, 0x4914B2B9, 0x172442D7, 0xDA8A0600,
                  0xA96F30BC, 0x163138AA, 0xE38DEE4D, 0xB0FB0E4E);
    RoundFrom(r, 0, 0, 0x61626380, 0x61626380, 0x51368692, 0xB9EDC12B, 0xC067DEBB);
  }

  /** The last round with the first constant and functions. */
  lemma Round15()
    ensures Round(Regs(0x7C529778, 0x24C95ABC, 0x979AB113, 0x947A12D2,
                       0x3EE95933, 0x1A4A2554, 0xDB131B86, 0xAC64EE8D), 15, 0x00000018, 0x719C70F5)
            == Regs(0x34D1691E, 0x7C529778, 0x92B57849, 0x979AB113,
                    0x61F99646, 0x3EE95933, 0x2AA0D251, 0xDB131B86)
  {
    hide Round;
    var r := Regs(0x7C529778, 0x24C95ABC, 0x979AB113, 0x947A12D2,
                  0x3EE95933, 0x1A4A2554, 0xDB131B86, 0xAC64EE8D);
    RoundFrom(r, 15, 15, 0x00000018, 0x719C70F5, 0x76CEEF45, 0x34D1691E, 0x22E445CB);
  }

  /** The first round with the second ones. */
  lemma Round16()
    ensures Round(Regs(0x34D1691E, 0x7C529778, 0x92B57849, 0x979AB113,
                       0x61F99646, 0x3EE95933, 0x2AA0D251, 0xDB131B86), 16, 0x9092E200, 0x9092E200)
            == Regs(0x796AFAB1, 0x34D1691E, 0xA52EF0F8, 0x92B57849,
                    0x067550F5, 0x61F99646, 0xC999F74A, 0x2AA0D251)
  {
    hide Round;
    var r := Regs(0x34D1691E, 0x7C529778, 0x92B57849, 0x979AB113,
                  0x61F99646, 0x3EE95933, 0x2AA0D251, 0xDB131B86);
    RoundFrom(r, 16, 16, 0x9092E200, 0x9092E200, 0x0AFA0D0B, 0x796AFAB1, 0xA1895AA4);
  }

  /** The last step of the compression, from the registers after the 64 rounds to the hash of "abc". */
  lemma FeedForward()
    ensures XorRegs(Regs(0x1547E69B, 0x2BFA5F60, 0xC6D696BC, 0x069AE2E2,
                         0xE808F43B, 0x4AC3CF08, 0xCAF04E66, 0x3FB0A6AE), IV)
            == [0x66C7F0F4, 0x62EEEDD9, 0xD1F2D46B, 0xDC10E4E2, 0x4167C487, 0x5CF2F7A2, 0x297DA02B, 0x8F4BA8E0]
  {
  }

  /** The k-th word of a chaining value takes the k-th four bytes. */
  lemma {:induction false} BytesAt(v: seq<word>, k: nat)
    requires k < |v|
    ensures 4 * k + 4 <= |Bytes(v)| && Bytes(v)[4 * k..4 * k + 4] == PutBE(v[k])
  {
    hide PutBE;
    if k > 0 {
      BytesAt(v[1..], k - 1);
      assert Bytes(v)[4 * k..4 * k + 4] == Bytes(v[1..])[4 * (k - 1)..4 * (k - 1) + 4];
    }
  }
}
