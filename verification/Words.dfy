/** 32-bit words, bytes, and the word operations and big-endian macros that sm3.c and sm4.c share.
    The operators are named so that the proofs about the ciphers can treat them as opaque. */
module Words {
  type octet = bv8
  type word = bv32

  function Xor(x: word, y: word): word { x ^ y }

  function And(x: word, y: word): word { x & y }

  function Or(x: word, y: word): word { x | y }

  function Not(x: word): word { !x }

  /** Addition mod 2^32. */
  function Add(x: word, y: word): word { x + y }

  function Xor3(x: word, y: word, z: word): word { Xor(Xor(x, y), z) }

  function Add3(x: word, y: word, z: word): word { Add(Add(x, y), z) }

  /** The ROTL macro, for counts up to the width of a word. */
  function Rotl(x: word, n: bv6): word
    requires n <= 32
  {
    (x << n) | (x >> (32 - n))
  }

  /** A rotation count, reduced mod 32 as the cipher standards define rotation. */
  function Count(j: nat): (n: bv6)
    ensures n <= 32
  {
    (j % 32) as bv6
  }

  /** GET_ULONG_BE on four bytes. */
  function GetBE(a: octet, b: octet, c: octet, d: octet): word {
    ((a as word) << 24) | ((b as word) << 16) | ((c as word) << 8) | (d as word)
  }

  function FromBits(b7: bool, b6: bool, b5: bool, b4: bool, b3: bool, b2: bool, b1: bool, b0: bool): octet {
    (if b7 then 0x80 else 0) | (if b6 then 0x40 else 0) | (if b5 then 0x20 else 0) | (if b4 then 0x10 else 0)
    | (if b3 then 0x08 else 0) | (if b2 then 0x04 else 0) | (if b1 then 0x02 else 0) | (if b0 then 0x01 else 0)
  }

  function Bit(n: nat, weight: nat): bool
    requires weight > 0
  {
    n / weight % 2 == 1
  }

  /** A number below 256 as a byte, made of its bits. */
  function ToByte(n: nat): octet
    requires n < 0x100
  {
    FromBits(Bit(n, 128), Bit(n, 64), Bit(n, 32), Bit(n, 16), Bit(n, 8), Bit(n, 4), Bit(n, 2), Bit(n, 1))
  }

  /** A 32-bit number as a word, made of its four bytes. */
  function ToWord(n: nat): word
    requires n < 0x1_0000_0000
  {
    GetBE(ToByte(n / 0x1000000), ToByte(n / 0x10000 % 0x100), ToByte(n / 0x100 % 0x100), ToByte(n % 0x100))
  }

  /** PUT_ULONG_BE: the four bytes of a word, most significant first. */
  function PutBE(n: word): (bytes: seq<octet>)
    ensures |bytes| == 4
  {
    [((n >> 24) & 0xFF) as octet, ((n >> 16) & 0xFF) as octet, ((n >> 8) & 0xFF) as octet, (n & 0xFF) as octet]
  }

  /** The word stored big-endian at offset `i` of `s`. */
  function WordAt(s: seq<octet>, i: nat): word
    requires i + 4 <= |s|
  {
    GetBE(s[i], s[i + 1], s[i + 2], s[i + 3])
  }

  /** The word stored big-endian at offset `i` of the array `a`. */
  function Get(a: array<octet>, i: nat): word
    reads a
    requires i + 4 <= a.Length
  {
    GetBE(a[i], a[i + 1], a[i + 2], a[i + 3])
  }

  /** PUT_ULONG_BE into an array. */
  method Put(n: word, a: array<octet>, i: nat)
    requires i + 4 <= a.Length
    modifies a
    ensures a[i..i + 4] == PutBE(n) && a[..i + 4] == old(a[..i]) + PutBE(n)
    ensures forall k :: 0 <= k < a.Length && !(i <= k < i + 4) ==> a[k] == old(a[k])
  {
    hide PutBE;
    var bytes := PutBE(n);
    a[i] := bytes[0];
    a[i + 1] := bytes[1];
    a[i + 2] := bytes[2];
    a[i + 3] := bytes[3];
    assert a[..i + 4] == a[..i] + a[i..i + 4];
  }

  /** Loading what was stored gives the word back. */
  lemma GetPut(n: word)
    ensures WordAt(PutBE(n), 0) == n
  {
  }

  /** Storing what was loaded gives the bytes back. */
  lemma PutGet(a: octet, b: octet, c: octet, d: octet)
    ensures PutBE(GetBE(a, b, c, d)) == [a, b, c, d]
  {
  }

  function Weights(b7: bool, b6: bool, b5: bool, b4: bool, b3: bool, b2: bool, b1: bool, b0: bool): nat {
    (if b7 then 128 else 0) + (if b6 then 64 else 0) + (if b5 then 32 else 0) + (if b4 then 16 else 0)
    + (if b3 then 8 else 0) + (if b2 then 4 else 0) + (if b1 then 2 else 0) + (if b0 then 1 else 0)
  }

  lemma BitsNumber(b7: bool, b6: bool, b5: bool, b4: bool, b3: bool, b2: bool, b1: bool, b0: bool)
    ensures FromBits(b7, b6, b5, b4, b3, b2, b1, b0) as nat == Weights(b7, b6, b5, b4, b3, b2, b1, b0)
  {
  }

  /** A number below 256 is the sum of the weights of its bits. */
  lemma BitSum(n: nat)
    requires n < 0x100
    ensures n == Weights(Bit(n, 128), Bit(n, 64), Bit(n, 32), Bit(n, 16), Bit(n, 8), Bit(n, 4), Bit(n, 2), Bit(n, 1))
  {
    hide Bit;
    Half(n, 128);
    Half(n, 64);
    Half(n, 32);
    Half(n, 16);
    Half(n, 8);
    Half(n, 4);
    Half(n, 2);
    Half(n, 1);
    assert n / 256 == 0 && n / 1 == n;
  }

  lemma Half(n: nat, weight: nat)
    requires weight > 0
    ensures n / weight == 2 * (n / (2 * weight)) + if Bit(n, weight) then 1 else 0
  {
    var q, r := n / (2 * weight), n % (2 * weight);
    if r < weight {
      Quotient(n, weight, 2 * q, r);
    } else {
      Quotient(n, weight, 2 * q + 1, r - weight);
    }
  }

  /** The byte made of a number is that number. */
  lemma ByteNumber(n: nat)
    requires n < 0x100
    ensures ToByte(n) as nat == n
  {
    hide FromBits, Bit, Weights;
    BitsNumber(Bit(n, 128), Bit(n, 64), Bit(n, 32), Bit(n, 16), Bit(n, 8), Bit(n, 4), Bit(n, 2), Bit(n, 1));
    BitSum(n);
  }

  /** The number that some bytes make up, the first one the most significant. */
  function Number(bytes: seq<octet>): nat {
    if bytes == [] then 0 else 256 * Number(bytes[..|bytes| - 1]) + bytes[|bytes| - 1] as nat
  }

  lemma NumberOfFour(a: octet, b: octet, c: octet, d: octet)
    ensures Number([a, b, c, d]) == 0x1000000 * a as nat + 0x10000 * b as nat + 0x100 * c as nat + d as nat
  {
    var all := [a, b, c, d];
    assert all[..3] == [a, b, c] && [a, b, c][..2] == [a, b] && [a, b][..1] == [a] && [a][..0] == [];
    assert Number([a]) == a as nat;
    assert Number([a, b]) == 256 * Number([a]) + b as nat;
    assert Number([a, b, c]) == 256 * Number([a, b]) + c as nat;
  }

  lemma {:induction false} NumberConcat4(a: seq<octet>, b: seq<octet>)
    requires |b| == 4
    ensures Number(a + b) == 0x1_0000_0000 * Number(a) + Number(b)
  {
    hide Number;
    NumberOfFour(b[0], b[1], b[2], b[3]);
    assert b == [b[0], b[1], b[2], b[3]];
    NumberSnoc(a, b[0]);
    NumberSnoc(a + [b[0]], b[1]);
    NumberSnoc(a + [b[0]] + [b[1]], b[2]);
    NumberSnoc(a + [b[0]] + [b[1]] + [b[2]], b[3]);
    assert a + b == a + [b[0]] + [b[1]] + [b[2]] + [b[3]];
  }

  lemma NumberSnoc(a: seq<octet>, x: octet)
    ensures Number(a + [x]) == 256 * Number(a) + x as nat
  {
    assert (a + [x])[..|a|] == a;
  }

  /** The bytes stored for a 32-bit number make up that number. */
  lemma WordNumber(n: nat)
    requires n < 0x1_0000_0000
    ensures Number(PutBE(ToWord(n))) == n
  {
    hide PutBE, GetBE, ToByte, Number;
    var n3, n2, n1, n0 := n / 0x1000000, n / 0x10000 % 0x100, n / 0x100 % 0x100, n % 0x100;
    PutGet(ToByte(n3), ToByte(n2), ToByte(n1), ToByte(n0));
    NumberOfFour(ToByte(n3), ToByte(n2), ToByte(n1), ToByte(n0));
    ByteNumber(n3);
    ByteNumber(n2);
    ByteNumber(n1);
    ByteNumber(n0);
    Digits(n);
  }

  lemma Quotient(n: nat, d: nat, q: nat, r: nat)
    requires d > 0 && n == d * q + r && r < d
    ensures n / d == q
  {
    assert n == d * (n / d) + n % d;
    assert d * (q - n / d) == n % d - r;
    NoSmallMultiple(d, q - n / d);
  }

  lemma NoSmallMultiple(m: int, d: int)
    requires m >= 0
    ensures d >= 1 ==> m * d >= m
    ensures d <= -1 ==> m * d <= -m
  {
  }

  lemma Digits(n: nat)
    ensures n == n % 0x100 + 0x100 * (n / 0x100 % 0x100) + 0x10000 * (n / 0x10000 % 0x100) + 0x1000000 * (n / 0x1000000)
  {
    assert n / 0x100 / 0x100 == n / 0x10000 && n / 0x10000 / 0x100 == n / 0x1000000;
  }

  // Rotations by the counts that the ciphers use distribute over xor and commute with rotation by 1.

  lemma By1(x: word, y: word)
    ensures Rotl(Xor(x, y), 1) == Xor(Rotl(x, 1), Rotl(y, 1))
    ensures Rotl(Rotl(x, 1), 1) == Rotl(Rotl(x, 1), 1)
  {
  }

  lemma By2(x: word, y: word)
    ensures Rotl(Xor(x, y), 2) == Xor(Rotl(x, 2), Rotl(y, 2))
    ensures Rotl(Rotl(x, 1), 2) == Rotl(Rotl(x, 2), 1)
  {
  }

  lemma By9(x: word, y: word)
    ensures Rotl(Xor(x, y), 9) == Xor(Rotl(x, 9), Rotl(y, 9))
    ensures Rotl(Rotl(x, 1), 9) == Rotl(Rotl(x, 9), 1)
  {
  }

  lemma By10(x: word, y: word)
    ensures Rotl(Xor(x, y), 10) == Xor(Rotl(x, 10), Rotl(y, 10))
    ensures Rotl(Rotl(x, 1), 10) == Rotl(Rotl(x, 10), 1)
  {
  }

  lemma By13(x: word, y: word)
    ensures Rotl(Xor(x, y), 13) == Xor(Rotl(x, 13), Rotl(y, 13))
    ensures Rotl(Rotl(x, 1), 13) == Rotl(Rotl(x, 13), 1)
  {
  }

  lemma By15(x: word, y: word)
    ensures Rotl(Xor(x, y), 15) == Xor(Rotl(x, 15), Rotl(y, 15))
    ensures Rotl(Rotl(x, 1), 15) == Rotl(Rotl(x, 15), 1)
  {
  }

  lemma By17(x: word, y: word)
    ensures Rotl(Xor(x, y), 17) == Xor(Rotl(x, 17), Rotl(y, 17))
    ensures Rotl(Rotl(x, 1), 17) == Rotl(Rotl(x, 17), 1)
  {
  }

  lemma By18(x: word, y: word)
    ensures Rotl(Xor(x, y), 18) == Xor(Rotl(x, 18), Rotl(y, 18))
    ensures Rotl(Rotl(x, 1), 18) == Rotl(Rotl(x, 18), 1)
  {
  }

  lemma By23(x: word, y: word)
    ensures Rotl(Xor(x, y), 23) == Xor(Rotl(x, 23), Rotl(y, 23))
    ensures Rotl(Rotl(x, 1), 23) == Rotl(Rotl(x, 23), 1)
  {
  }

  lemma By24(x: word, y: word)
    ensures Rotl(Xor(x, y), 24) == Xor(Rotl(x, 24), Rotl(y, 24))
    ensures Rotl(Rotl(x, 1), 24) == Rotl(Rotl(x, 24), 1)
  {
  }

  /** Rotation by 1 doubles a number below 2^31 and brings the top bit back at the bottom. */
  lemma TurnDoubles(x: word)
    ensures x < 0x80000000 ==> Rotl(x, 1) == Add(x, x)
    ensures Rotl(0x80000000, 1) == 1
  {
  }

  lemma XorShuffle(a: word, b: word, c: word, d: word)
    ensures Xor(Xor(a, b), Xor(c, d)) == Xor(Xor(a, c), Xor(b, d))
  {
    hide Xor;
    XorAssociates(a, b, Xor(c, d));
    XorAssociates(b, c, d);
    XorCommutes(b, c);
    XorAssociates(c, b, d);
    XorAssociates(a, c, Xor(b, d));
  }

  lemma XorAssociates(x: word, y: word, z: word)
    ensures Xor(x, Xor(y, z)) == Xor(Xor(x, y), z)
  {
  }

  lemma XorCommutes(x: word, y: word)
    ensures Xor(x, y) == Xor(y, x)
  {
  }

  /** Adding the same word twice cancels. */
  lemma XorCancels(x: word, y: word)
    ensures Xor(Xor(x, y), y) == x
  {
  }
}
