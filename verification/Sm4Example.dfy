/** The first rounds of the block of gm-test/gmalg_test/src/sm4_test.c, whose key and plaintext are
    0123456789abcdeffedcba9876543210: the round keys and cipher words that GB/T 32907-2016 lists for it in
    its appendix A. */
module Sm4Example {
  import opened Words
  import opened Sm4

  const BLOCK: seq<octet> := [
    0x01, 0x23, 0x45, 0x67, 0x89, 0xab, 0xcd, 0xef, 0xfe, 0xdc, 0xba, 0x98, 0x76, 0x54, 0x32, 0x10
  ]

  /** The byte substitution without sequences. */
  function Subst(x: word): word {
    (Sbox((x >> 24) as octet) as word << 24) | (Sbox(((x >> 16) & 0xFF) as octet) as word << 16)
    | (Sbox(((x >> 8) & 0xFF) as octet) as word << 8) | Sbox((x & 0xFF) as octet) as word
  }

  lemma TauIs(x: word)
    ensures Tau(x) == Subst(x)
  {
    hide Sbox;
  }

  lemma KeyRound(q: Quad, rk: word, z: word)
    requires z == Xor(q.x0, LKey(Subst(Xor(Xor3(q.x1, q.x2, q.x3), rk))))
    ensures Step(CalciRK, q, rk) == Quad(q.x1, q.x2, q.x3, z)
  {
    hide Subst, LKey, Tau, Xor;
    TauIs(Xor(Xor3(q.x1, q.x2, q.x3), rk));
  }

  lemma BlockRound(q: Quad, rk: word, z: word)
    requires z == Xor(q.x0, L(Subst(Xor(Xor3(q.x1, q.x2, q.x3), rk))))
    ensures Step(Lt, q, rk) == Quad(q.x1, q.x2, q.x3, z)
  {
    hide Subst, L, Tau, Xor;
    TauIs(Xor(Xor3(q.x1, q.x2, q.x3), rk));
  }

  // ----- the single rounds

  lemma Key0()
    ensures Step(CalciRK, Quad(0xa292ffa1, 0xdf01febf, 0x99a12b0f, 0xc42410cc), 0x00070e15)
            == Quad(0xdf01febf, 0x99a12b0f, 0xc42410cc, 0xf12186f9)
  {
    KeyRound(Quad(0xa292ffa1, 0xdf01febf, 0x99a12b0f, 0xc42410cc), 0x00070e15, 0xf12186f9);
  }

  lemma Key1()
    ensures Step(CalciRK, Quad(0xdf01febf, 0x99a12b0f, 0xc42410cc, 0xf12186f9), 0x1c232a31)
            == Quad(0x99a12b0f, 0xc42410cc, 0xf12186f9, 0x41662b61)
  {
    KeyRound(Quad(0xdf01febf, 0x99a12b0f, 0xc42410cc, 0xf12186f9), 0x1c232a31, 0x41662b61);
  }

  lemma Key2()
    ensures Step(CalciRK, Quad(0x99a12b0f, 0xc42410cc, 0xf12186f9, 0x41662b61), 0x383f464d)
            == Quad(0xc42410cc, 0xf12186f9, 0x41662b61, 0x5a6ab19a)
  {
    KeyRound(Quad(0x99a12b0f, 0xc42410cc, 0xf12186f9, 0x41662b61), 0x383f464d, 0x5a6ab19a);
  }

  lemma Key3()
    ensures Step(CalciRK, Quad(0xc42410cc, 0xf12186f9, 0x41662b61, 0x5a6ab19a), 0x545b6269)
            == Quad(0xf12186f9, 0x41662b61, 0x5a6ab19a, 0x7ba92077)
  {
    KeyRound(Quad(0xc42410cc, 0xf12186f9, 0x41662b61, 0x5a6ab19a), 0x545b6269, 0x7ba92077);
  }

  lemma Block0()
    ensures Step(Lt, Quad(0x01234567, 0x89abcdef, 0xfedcba98, 0x76543210), 0xf12186f9)
            == Quad(0x89abcdef, 0xfedcba98, 0x76543210, 0x27fad345)
  {
    BlockRound(Quad(0x01234567, 0x89abcdef, 0xfedcba98, 0x76543210), 0xf12186f9, 0x27fad345);
  }

  lemma Block1()
    ensures Step(Lt, Quad(0x89abcdef, 0xfedcba98, 0x76543210, 0x27fad345), 0x41662b61)
            == Quad(0xfedcba98, 0x76543210, 0x27fad345, 0xa18b4cb2)
  {
    BlockRound(Quad(0x89abcdef, 0xfedcba98, 0x76543210, 0x27fad345), 0x41662b61, 0xa18b4cb2);
  }

  lemma Block2()
    ensures Step(Lt, Quad(0xfedcba98, 0x76543210, 0x27fad345, 0xa18b4cb2), 0x5a6ab19a)
            == Quad(0x76543210, 0x27fad345, 0xa18b4cb2, 0x11c1e22a)
  {
    BlockRound(Quad(0xfedcba98, 0x76543210, 0x27fad345, 0xa18b4cb2), 0x5a6ab19a, 0x11c1e22a);
  }

  lemma Block3()
    ensures Step(Lt, Quad(0x76543210, 0x27fad345, 0xa18b4cb2, 0x11c1e22a), 0x7ba92077)
            == Quad(0x27fad345, 0xa18b4cb2, 0x11c1e22a, 0xcc13e2ee)
  {
    BlockRound(Quad(0x76543210, 0x27fad345, 0xa18b4cb2, 0x11c1e22a), 0x7ba92077, 0xcc13e2ee);
  }

  // ----- the first four together

  lemma FirstWords()
    ensures Load(BLOCK) == Quad(0x01234567, 0x89abcdef, 0xfedcba98, 0x76543210)
    ensures MaskKey(Load(BLOCK)) == Quad(0xa292ffa1, 0xdf01febf, 0x99a12b0f, 0xc42410cc)
  {
  }

  lemma FourSteps(t: word -> word, x: Quad, keys: seq<word>)
    requires |keys| >= 4
    ensures Rounds(t, x, keys[..1]) == Step(t, x, keys[0])
    ensures Rounds(t, x, keys[..2]) == Step(t, Rounds(t, x, keys[..1]), keys[1])
    ensures Rounds(t, x, keys[..3]) == Step(t, Rounds(t, x, keys[..2]), keys[2])
    ensures Rounds(t, x, keys[..4]) == Step(t, Rounds(t, x, keys[..3]), keys[3])
  {
    hide Step, Rounds;
    RoundsNone(t, x);
    assert keys[..0] == [];
    RoundsSnoc(t, x, keys, 0);
    RoundsSnoc(t, x, keys, 1);
    RoundsSnoc(t, x, keys, 2);
    RoundsSnoc(t, x, keys, 3);
  }

  /** The first four round keys of the key. */
  lemma FirstRoundKeys()
    ensures RoundKeys(BLOCK)[..4] == [0xf12186f9, 0x41662b61, 0x5a6ab19a, 0x7ba92077]
  {
    hide Step, Rounds, Load, MaskKey;
    FirstWords();
    FourSteps(CalciRK, MaskKey(Load(BLOCK)), CK);
    assert CK[0] == 0x00070e15 && CK[1] == 0x1c232a31 && CK[2] == 0x383f464d && CK[3] == 0x545b6269;
    Key0();
    Key1();
    Key2();
    Key3();
  }

  /** The first four words the cipher computes from the block under them. */
  lemma FirstCipherWords()
    ensures Rounds(Lt, Load(BLOCK), RoundKeys(BLOCK)[..4]) == Quad(0x27fad345, 0xa18b4cb2, 0x11c1e22a, 0xcc13e2ee)
  {
    hide Step, Rounds, Load, MaskKey, RoundKeys;
    FirstWords();
    FirstRoundKeys();
    var sk := RoundKeys(BLOCK)[..4];
    assert sk[..4] == sk;
    FourSteps(Lt, Load(BLOCK), sk);
    Block0();
    Block1();
    Block2();
    Block3();
  }
}
