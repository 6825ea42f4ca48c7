/** The streaming hash context of gm-test/gmalg_test/src/sm3.c, refined to the pure hash of Sm3Spec. */
module Sm3 {
  import opened Words
  import opened Sm3Spec

  const TWO_32: nat := 0x1_0000_0000
  const TWO_64: nat := 0x1_0000_0000_0000_0000

  /** The split counter of sm3_update: the wrap test on the low half carries into the high half. */
  lemma CounterCarry(t0: nat, t1: nat, n: nat, ilen: nat)
    requires t0 < TWO_32 && t1 < TWO_32 && ilen < TWO_32
    requires t0 + TWO_32 * t1 == n % TWO_64
    ensures var low := (t0 + ilen) % TWO_32;
            var high := if low < ilen then (t1 + 1) % TWO_32 else t1;
            low + TWO_32 * high == (n + ilen) % TWO_64
  {
    var low := (t0 + ilen) % TWO_32;
    if t0 + ilen < TWO_32 {
      assert low == t0 + ilen;
    } else {
      assert low == t0 + ilen - TWO_32;
    }
  }

  /** Its low six bits are the number of pending bytes. */
  lemma CounterPending(t0: nat, t1: nat, n: nat)
    requires t0 + TWO_32 * t1 == n % TWO_64
    ensures t0 % 64 == n % 64
  {
    assert n == TWO_64 * (n / TWO_64) + t0 + TWO_32 * t1;
    assert n == 64 * (0x400_0000_0000_0000 * (n / TWO_64) + 0x400_0000 * t1) + t0;
  }

  /** Bitwise or of unsigned numbers, from the lowest bit up. */
  function BitOr(a: nat, b: nat): nat {
    if a == 0 then b
    else (if a % 2 == 1 || b % 2 == 1 then 1 else 0) + 2 * BitOr(a / 2, b / 2)
  }

  /** The two operands of the or that forms the high length word share no bit. */
  lemma HighWordOr(a: nat, b: nat)
    requires a < 8
    ensures BitOr(a, 8 * b) == a + 8 * b
  {
    hide BitOr;
    OrShifted(a, 4 * b);
    OrShifted(a / 2, 2 * b);
    OrShifted(a / 2 / 2, b);
    OrNothing(b);
  }

  lemma OrNothing(b: nat)
    ensures BitOr(0, b) == b
  {
  }

  lemma OrShifted(a: nat, b: nat)
    ensures BitOr(a, 2 * b) == a % 2 + 2 * BitOr(a / 2, b)
  {
    assert 2 * b / 2 == b && 2 * b % 2 == 0;
  }

  /** The shifted halves of the counter are the two halves of 8 times the counter mod 2^64. */
  lemma LengthWords(t0: nat, t1: nat, n: nat)
    requires t0 < TWO_32 && t1 < TWO_32 && t0 + TWO_32 * t1 == n % TWO_64
    ensures (t0 / 0x2000_0000 + 8 * t1 % TWO_32) < TWO_32
    ensures (t0 / 0x2000_0000 + 8 * t1 % TWO_32) == 8 * n % TWO_64 / TWO_32
    ensures 8 * t0 % TWO_32 == 8 * n % TWO_64 % TWO_32
  {
    var q := n / TWO_64;
    assert n == TWO_64 * q + t0 + TWO_32 * t1;
    var a, b := t0 / 0x2000_0000, t0 % 0x2000_0000;
    var c, d := t1 / 0x2000_0000, t1 % 0x2000_0000;
    Residue(8 * n, TWO_64, 8 * q + c, 8 * b + TWO_32 * (a + 8 * d));
    Residue(8 * b + TWO_32 * (a + 8 * d), TWO_32, a + 8 * d, 8 * b);
    Residue(8 * t1, TWO_32, c, 8 * d);
    Residue(8 * t0, TWO_32, a, 8 * b);
  }

  lemma Residue(n: nat, m: nat, q: nat, r: nat)
    requires m > 0 && n == m * q + r && r < m
    ensures n % m == r && n / m == q
  {
    Quotient(n, m, q, r);
    assert n == m * (n / m) + n % m;
  }

  lemma LengthFieldIs(n: nat, high: nat, low: nat)
    requires high < TWO_32 && low < TWO_32
    requires high == 8 * n % TWO_64 / TWO_32 && low == 8 * n % TWO_64 % TWO_32
    ensures LengthField(n) == PutBE(ToWord(high)) + PutBE(ToWord(low))
  {
    hide PutBE, ToWord;
  }

  class Context {
    var total0: nat
    var total1: nat
    const state: array<word>
    const buffer: array<octet>
    /** The bytes hashed since the last sm3_starts. */
    ghost var absorbed: seq<octet>

    /** Types and shapes of the C struct, whatever its contents. */
    ghost predicate Shape()
      reads this
    {
      state.Length == 8 && buffer.Length == 64 && total0 < TWO_32 && total1 < TWO_32
    }

    /** The context represents exactly the bytes absorbed so far. */
    ghost predicate Valid()
      reads this, state, buffer
    {
      && Shape()
      && total0 + TWO_32 * total1 == |absorbed| % TWO_64
      && state[..] == Absorb(Compress, IV, absorbed)
      && buffer[..|absorbed| % 64] == Pending(absorbed)
    }

    constructor ()
      ensures Shape() && fresh(state) && fresh(buffer)
    {
      state := new word[8];
      buffer := new octet[64];
      total0, total1, absorbed := 0, 0, [];
    }

    method Starts()
      requires Shape()
      modifies this, state
      ensures Valid() && absorbed == []
    {
      total0 := 0;
      total1 := 0;
      state[0] := 0x7380166F;
      state[1] := 0x4914B2B9;
      state[2] := 0x172442D7;
      state[3] := 0xDA8A0600;
      state[4] := 0xA96F30BC;
      state[5] := 0x163138AA;
      state[6] := 0xE38DEE4D;
      state[7] := 0xB0FB0E4E;
      absorbed := [];
      assert state[..] == IV;
    }

    /** The last step of sm3_process: the registers are added into the chaining value. */
    method FeedForward(r: Regs)
      requires state.Length == 8
      modifies state
      ensures state[..] == XorRegs(r, old(state[..]))
    {
      hide Xor;
      ghost var v := state[..];
      state[0] := Xor(state[0], r.a);
      state[1] := Xor(state[1], r.b);
      state[2] := Xor(state[2], r.c);
      state[3] := Xor(state[3], r.d);
      state[4] := Xor(state[4], r.e);
      state[5] := Xor(state[5], r.f);
      state[6] := Xor(state[6], r.g);
      state[7] := Xor(state[7], r.h);
      assert state[..] == [state[0], state[1], state[2], state[3], state[4], state[5], state[6], state[7]];
    }

    /** The two round loops of sm3_process, shifting the registers A..H in place. */
    method RunRounds(w: array<word>, w1: array<word>, ghost schedule: seq<(word, word)>) returns (r: Regs)
      requires state.Length == 8 && w.Length == 68 && w1.Length == 64 && |schedule| == 64
      requires forall i :: 0 <= i < 64 ==> schedule[i] == (w[i], w1[i])
      ensures r == Rounds(Load(state[..]), schedule)
    {
      hide Rotl, P0, T, FF0, FF1, GG0, GG1, Xor, Add, Round;
      ghost var v: Chain := state[..];
      var t := RoundConstants();
      var a, b, c, d := state[0], state[1], state[2], state[3];
      var e, f, g, h := state[4], state[5], state[6], state[7];
      var ss1, ss2, tt1, tt2: word;
      for j := 0 to 16
        invariant forall i :: 0 <= i < 64 ==> t[i] == T(i) && schedule[i] == (w[i], w1[i])
        invariant Regs(a, b, c, d, e, f, g, h) == Rounds(Load(v), schedule[..j])
      {
        ghost var before := Regs(a, b, c, d, e, f, g, h);
        ss1 := Rotl(Add3(Rotl(a, 12), e, Rotl(t[j], Count(j))), 7);
        ss2 := Xor(ss1, Rotl(a, 12));
        tt1 := Add(Add3(FF0(a, b, c), d, ss2), w1[j]);
        tt2 := Add(Add3(GG0(e, f, g), h, ss1), w[j]);
        d := c;
        c := Rotl(b, 9);
        b := a;
        a := tt1;
        h := g;
        g := Rotl(f, 19);
        f := e;
        e := P0(tt2);
        RoundInPlace(before, j, w[j], w1[j]);
        assert schedule[..j + 1][..j] == schedule[..j];
      }
      for j := 16 to 64
        invariant forall i :: 0 <= i < 64 ==> t[i] == T(i) && schedule[i] == (w[i], w1[i])
        invariant Regs(a, b, c, d, e, f, g, h) == Rounds(Load(v), schedule[..j])
      {
        ghost var before := Regs(a, b, c, d, e, f, g, h);
        ss1 := Rotl(Add3(Rotl(a, 12), e, Rotl(t[j], Count(j))), 7);
        ss2 := Xor(ss1, Rotl(a, 12));
        tt1 := Add(Add3(FF1(a, b, c), d, ss2), w1[j]);
        tt2 := Add(Add3(GG1(e, f, g), h, ss1), w[j]);
        d := c;
        c := Rotl(b, 9);
        b := a;
        a := tt1;
        h := g;
        g := Rotl(f, 19);
        f := e;
        e := P0(tt2);
        RoundInPlace(before, j, w[j], w1[j]);
        assert schedule[..j + 1][..j] == schedule[..j];
      }
      assert schedule[..64] == schedule;
      r := Regs(a, b, c, d, e, f, g, h);
    }

    /** One compression of the block stored at `data[off..off + 64]`. */
    method Process(data: array<octet>, off: nat)
      requires state.Length == 8 && off + 64 <= data.Length
      modifies state
      ensures state[..] == Compress(old(state[..]), data[off..off + 64])
    {
      hide W, W1, Rounds, Compress, XorRegs;
      ghost var block: Block := data[off..off + 64];
      ghost var v: Chain := state[..];
      var w, w1 := Expand(data, off);
      var r := RunRounds(w, w1, Schedule(block));
      CompressUnfolds(v, block);
      FeedForward(r);
    }

    /** The first branch of sm3_update: when the chunk completes the partial block, compress it. */
    method FillBuffer(input: array<octet>, ilen: nat, left0: nat, ghost m: seq<octet>)
      returns (pos: nat, n: nat, left: nat)
      requires state.Length == 8 && buffer.Length == 64 && ilen <= input.Length && input != buffer
      requires state[..] == Absorb(Compress, IV, m)
      requires left0 == |m| % 64 && buffer[..left0] == Pending(m)
      modifies state, buffer
      ensures pos + n == ilen && state[..] == Absorb(Compress, IV, m + input[..pos])
      ensures left == |m + input[..pos]| % 64 && buffer[..left] == Pending(m + input[..pos])
      ensures left == 0 || n < 64 - left
    {
      hide Compress, Absorb, Pending;
      left := left0;
      var fill := 64 - left;
      pos, n := 0, ilen;
      if left != 0 && n >= fill {
        Copy(buffer, left, input, 0, fill);
        Process(buffer, 0);
        assert buffer[0..64] == Pending(m) + input[..fill];
        BlockFilled(Compress, IV, m, input[..fill]);
        pos, n, left := fill, n - fill, 0;
      } else {
        assert m + input[..0] == m;
      }
    }

    /** The loop of sm3_update: compresses whole blocks straight from the input. `m` is what the
        chaining value already covers; with fewer than 64 bytes left nothing happens. */
    method Blocks(input: array<octet>, from: nat, count: nat, ghost m: seq<octet>) returns (pos: nat, n: nat)
      requires state.Length == 8 && from + count <= input.Length
      requires state[..] == Absorb(Compress, IV, m)
      requires |m| % 64 == 0 || count < 64
      modifies state
      ensures from <= pos && pos + n == from + count && n < 64
      ensures state[..] == Absorb(Compress, IV, m + input[from..pos])
      ensures Pending(m + input[from..pos]) == Pending(m) && |m + input[from..pos]| % 64 == |m| % 64
    {
      hide Compress, Absorb, Pending;
      pos, n := from, count;
      assert m + input[from..from] == m;
      while n >= 64
        invariant from <= pos && pos + n == from + count
        invariant state[..] == Absorb(Compress, IV, m + input[from..pos])
        invariant if |m| % 64 == 0 then |m + input[from..pos]| % 64 == 0 else pos == from
      {
        Process(input, pos);
        AbsorbBlock(Compress, IV, m + input[from..pos], input[pos..pos + 64]);
        assert m + input[from..pos] + input[pos..pos + 64] == m + input[from..pos + 64];
        pos, n := pos + 64, n - 64;
      }
    }

    /** The last branch of sm3_update: the tail is kept in the buffer. */
    method KeepTail(input: array<octet>, pos: nat, n: nat, left: nat, ghost m: seq<octet>)
      requires buffer.Length == 64 && pos + n <= input.Length && input != buffer
      requires left == |m| % 64 && buffer[..left] == Pending(m) && n < 64 - left
      modifies buffer
      ensures var m' := m + input[pos..pos + n];
              && Absorb(Compress, IV, m') == Absorb(Compress, IV, m)
              && |m'| % 64 == left + n
              && buffer[..left + n] == Pending(m')
    {
      hide Compress, Absorb, Pending;
      if n > 0 {
        Copy(buffer, left, input, pos, n);
      }
      TailKept(Compress, IV, m, input[pos..pos + n]);
      assert buffer[..left + n] == Pending(m) + input[pos..pos + n];
    }

    /** Absorbs `input[..ilen]`: fills a partial block, then consumes whole blocks, then keeps the
        tail. An empty chunk is refused and changes nothing. */
    method Update(input: array<octet>, ilen: nat) returns (ret: int)
      requires Valid() && ilen < TWO_32 && ilen <= input.Length && input != buffer
      modifies this`total0, this`total1, this`absorbed, state, buffer
      ensures Valid() && absorbed == old(absorbed) + input[..ilen]
      ensures ret == if ilen == 0 then -1 else 0
    {
      hide Compress, Absorb, Pending;
      ghost var m := absorbed;
      if ilen <= 0 {
        assert m + input[..ilen] == m;
        return -1;
      }
      var left := total0 % 64;
      CounterPending(total0, total1, |m|);
      CounterCarry(total0, total1, |m|, ilen);
      total0 := (total0 + ilen) % TWO_32;
      if total0 < ilen {
        total1 := (total1 + 1) % TWO_32;
      }
      var pos, n;
      pos, n, left := FillBuffer(input, ilen, left, m);
      ghost var m1, rest := m + input[..pos], n;
      pos, n := Blocks(input, pos, n, m1);
      KeepTail(input, pos, n, left, m1 + input[ilen - rest..pos]);
      Rejoin(m, input[..], ilen - rest, pos, ilen);
      absorbed := m + input[..ilen];
      ret := 0;
    }

    /** Pads and absorbs the length, both through Update itself. */
    method Pad()
      requires Valid()
      modifies this`total0, this`total1, this`absorbed, state, buffer
      ensures Valid() && absorbed == old(absorbed) + Padding(|old(absorbed)|)
    {
      hide Compress, Absorb, Pending, LengthField;
      ghost var m := absorbed;
      CounterPending(total0, total1, |m|);
      var msglen := MessageLength();
      var last := total0 % 64;
      var padn := if last < 56 then 56 - last else 120 - last;
      var padding := new octet[64](i => if i == 0 then 0x80 else 0);
      assert padding[..padn] == [0x80] + Zeros(ZeroCount(|m|));
      var _ := Update(padding, padn);
      var _ := Update(msglen, 8);
      assert msglen[..8] == LengthField(|m|);
      assert absorbed == m + Padding(|m|);
    }

    /** Pads and stores the digest. */
    method Finish(output: array<octet>)
      requires Valid() && output.Length >= 32 && output != buffer
      modifies this`total0, this`total1, this`absorbed, state, buffer, output
      ensures output[..32] == Digest(old(absorbed)) && output[32..] == old(output[32..])
      ensures Valid() && absorbed == old(absorbed) + Padding(|old(absorbed)|)
    {
      hide Compress, Absorb, Pending, Padding, Digest, Bytes;
      ghost var m := absorbed;
      Pad();
      StoreState(output);
      DigestUnfolds(m);
    }

    /** The bit length of the message as sm3_finish lays it out from the two counter halves. */
    method MessageLength() returns (msglen: array<octet>)
      requires Valid()
      ensures fresh(msglen) && msglen[..] == LengthField(|absorbed|)
    {
      hide PutBE, ToWord, LengthField, Absorb, Compress, Pending, BitOr;
      LengthWords(total0, total1, |absorbed|);
      Residue(8 * total1, TWO_32, total1 / 0x2000_0000, 8 * (total1 % 0x2000_0000));
      HighWordOr(total0 / 0x2000_0000, total1 % 0x2000_0000);
      var high := BitOr(total0 / 0x2000_0000, 8 * total1 % TWO_32);
      var low := 8 * total0 % TWO_32;
      msglen := new octet[8];
      LengthFieldIs(|absorbed|, high, low);
      Put(ToWord(high), msglen, 0);
      Put(ToWord(low), msglen, 4);
      assert msglen[..] == msglen[..8];
    }

    /** The k-th of the PUT_ULONG_BE lines that end sm3_finish. */
    method StoreWord(output: array<octet>, k: nat)
      requires state.Length == 8 && output.Length >= 32 && k < 8
      requires output[..4 * k] == Bytes(state[..k])
      modifies output
      ensures output[..4 * k + 4] == Bytes(state[..k + 1]) && output[32..] == old(output[32..])
    {
      hide PutBE;
      Put(state[k], output, 4 * k);
      BytesSnoc(state[..k], state[k]);
      assert state[..k + 1] == state[..k] + [state[k]];
    }

    /** The eight PUT_ULONG_BE lines that end sm3_finish. */
    method StoreState(output: array<octet>)
      requires state.Length == 8 && output.Length >= 32
      modifies output
      ensures output[..32] == Bytes(state[..]) && output[32..] == old(output[32..])
    {
      hide Bytes;
      BytesEmpty();
      StoreWord(output, 0);
      StoreWord(output, 1);
      StoreWord(output, 2);
      StoreWord(output, 3);
      StoreWord(output, 4);
      StoreWord(output, 5);
      StoreWord(output, 6);
      StoreWord(output, 7);
      assert state[..8] == state[..];
    }

    /** Starts over, whatever was absorbed before, and hashes just `data[..len]`. */
    method Finup(data: array<octet>, len: nat, out: array<octet>)
      requires Shape() && len < TWO_32 && len <= data.Length && data != buffer
      requires out.Length >= 32 && out != buffer
      modifies this, state, buffer, out
      ensures out[..32] == Digest(old(data[..len]))
      ensures Valid() && absorbed == old(data[..len]) + Padding(len)
    {
      hide Digest, Absorb, Compress, Pending;
      Starts();
      var _ := Update(data, len);
      assert absorbed == old(data[..len]);
      Finish(out);
    }
  }

  /** What Finup leaves absorbed is what Update and Finish would have left of a context that had absorbed
      m, exactly when m was empty. */
  lemma FinupContinues(m: seq<octet>, data: seq<octet>)
    ensures data + Padding(|data|) == m + data + Padding(|m + data|) <==> m == []
  {
    hide Padding;
    if m == [] {
      assert m + data == data;
    }
    var a, b := data + Padding(|data|), m + data + Padding(|m + data|);
    if a == b {
      PaddingEnds(|data|);
      PaddingEnds(|m + data|);
      assert a[|a| - 8..] == LengthField(|data|) && b[|b| - 8..] == LengthField(|m + data|);
      LengthFieldTells(|data|, |m + data|);
    }
  }

  lemma PaddingEnds(n: nat)
    ensures 9 <= |Padding(n)| <= 72 && Padding(n)[|Padding(n)| - 8..] == LengthField(n)
  {
    hide LengthField;
  }

  /** The length field tells apart lengths that differ by less than 2^61. */
  lemma LengthFieldTells(m: nat, n: nat)
    requires LengthField(m) == LengthField(n) && m <= n < m + 0x2000_0000_0000_0000
    ensures m == n
  {
    hide LengthField, Number;
    LengthFieldNumber(m);
    LengthFieldNumber(n);
    assert 8 * m == TWO_64 * (8 * m / TWO_64) + 8 * m % TWO_64 && 8 * n == TWO_64 * (8 * n / TWO_64) + 8 * n % TWO_64;
  }

  /** Any sequence of chunks hashes to the digest of their concatenation: how the message was cut,
      empty chunks included, does not show. */
  method HashChunks(ctx: Context, chunks: seq<array<octet>>, out: array<octet>)
    requires ctx.Shape() && out.Length >= 32 && out != ctx.buffer
    requires forall i :: 0 <= i < |chunks| ==>
               chunks[i].Length < TWO_32 && chunks[i] != ctx.buffer && chunks[i] != out
    modifies ctx, ctx.state, ctx.buffer, out
    ensures out[..32] == Digest(old(Flatten(Contents(chunks))))
  {
    hide Digest, Absorb, Compress, Pending;
    ctx.Starts();
    ghost var parts := Contents(chunks);
    for i := 0 to |chunks|
      modifies ctx, ctx.state, ctx.buffer
      invariant ctx.Valid() && ctx.absorbed == Flatten(parts[..i])
      invariant forall k :: 0 <= k < |chunks| ==> chunks[k][..] == parts[k]
    {
      var _ := ctx.Update(chunks[i], chunks[i].Length);
      FlattenSnoc(parts[..i], parts[i]);
      assert parts[..i + 1] == parts[..i] + [parts[i]];
    }
    assert parts[..|chunks|] == parts;
    ctx.Finish(out);
  }

  ghost function Contents(chunks: seq<array<octet>>): seq<seq<octet>>
    reads chunks
  {
    seq(|chunks|, i requires 0 <= i < |chunks| reads chunks => chunks[i][..])
  }

  lemma {:induction false} FlattenSnoc(parts: seq<seq<octet>>, last: seq<octet>)
    ensures Flatten(parts + [last]) == Flatten(parts) + last
  {
    if parts != [] {
      assert (parts + [last])[1..] == parts[1..] + [last];
      FlattenSnoc(parts[1..], last);
    } else {
      assert Flatten([last]) == last + Flatten([]);
    }
  }

  lemma BytesEmpty()
    ensures Bytes([]) == []
  {
  }

  lemma {:induction false} BytesSnoc(v: seq<word>, n: word)
    ensures Bytes(v + [n]) == Bytes(v) + PutBE(n)
  {
    hide PutBE;
    if v != [] {
      assert (v + [n])[1..] == v[1..] + [n];
      BytesSnoc(v[1..], n);
    } else {
      assert Bytes([n]) == PutBE(n) + Bytes([]);
    }
  }

  lemma DigestUnfolds(m: seq<octet>)
    ensures Digest(m) == Bytes(Absorb(Compress, IV, m + Padding(|m|)))
  {
    hide Absorb, Compress;
  }

  lemma Rejoin(m: seq<octet>, s: seq<octet>, i: nat, j: nat, k: nat)
    requires i <= j <= k <= |s|
    ensures m + s[..i] + s[i..j] + s[j..k] == m + s[..k]
  {
  }

  method Copy(dst: array<octet>, d: nat, src: array<octet>, s: nat, n: nat)
    requires d + n <= dst.Length && s + n <= src.Length && dst != src
    modifies dst
    ensures dst[..] == old(dst[..d]) + src[s..s + n] + old(dst[d + n..])
  {
    forall k | 0 <= k < n {
      dst[d + k] := src[s + k];
    }
  }

  /** One round, written as the loops assign the registers. */
  lemma RoundInPlace(r: Regs, j: nat, w: word, w1: word)
    ensures var ss1 := Rotl(Add3(Rotl(r.a, 12), r.e, Rotl(T(j), Count(j))), 7);
            var ss2 := Xor(ss1, Rotl(r.a, 12));
            var ff := if j < 16 then FF0(r.a, r.b, r.c) else FF1(r.a, r.b, r.c);
            var gg := if j < 16 then GG0(r.e, r.f, r.g) else GG1(r.e, r.f, r.g);
            var tt1 := Add(Add3(ff, r.d, ss2), w1);
            var tt2 := Add(Add3(gg, r.h, ss1), w);
            Round(r, j, w, w1) == Regs(tt1, r.a, Rotl(r.b, 9), r.c, P0(tt2), r.e, Rotl(r.f, 19), r.g)
  {
    hide Rotl, P0, T, FF0, FF1, GG0, GG1, Xor, Add;
  }

  lemma CompressUnfolds(v: Chain, b: Block)
    ensures Compress(v, b) == XorRegs(Rounds(Load(v), Schedule(b)), v)
  {
  }

  /** The table T of sm3_process. */
  method RoundConstants() returns (t: array<word>)
    ensures fresh(t) && t.Length == 64
    ensures forall j :: 0 <= j < 64 ==> t[j] == T(j)
  {
    t := new word[64];
    for j := 0 to 16
      invariant forall i :: 0 <= i < j ==> t[i] == T(i)
    {
      t[j] := 0x79CC4519;
    }
    for j := 16 to 64
      invariant forall i :: 0 <= i < j ==> t[i] == T(i)
    {
      t[j] := 0x7A879D8A;
    }
  }

  /** The message expansion of sm3_process: W_0..W_67 through Temp1..Temp5, then W'_0..W'_63. */
  method Expand(data: array<octet>, off: nat) returns (w: array<word>, w1: array<word>)
    requires off + 64 <= data.Length
    ensures fresh(w) && fresh(w1) && w.Length == 68 && w1.Length == 64
    ensures var b: Block := data[off..off + 64];
            && (forall j :: 0 <= j < 68 ==> w[j] == W(b, j))
            && (forall j :: 0 <= j < 64 ==> w1[j] == W1(b, j))
  {
    hide W, ExpandWord, Xor, GetBE;
    ghost var b: Block := data[off..off + 64];
    w := new word[68];
    for j := 0 to 16
      invariant forall i :: 0 <= i < j ==> w[i] == W(b, i)
    {
      w[j] := Get(data, off + 4 * j);
      FirstWords(b, j);
    }
    for j := 16 to 68
      invariant forall i :: 0 <= i < j ==> w[i] == W(b, i)
    {
      w[j] := ExpandStep(w, j);
      LaterWords(b, j);
    }
    w1 := new word[64];
    for j := 0 to 64
      invariant forall i :: 0 <= i < 68 ==> w[i] == W(b, i)
      invariant forall i :: 0 <= i < j ==> w1[i] == Xor(w[i], w[i + 4])
    {
      w1[j] := Xor(w[j], w[j + 4]);
    }
  }

  /** The body of the expansion loop. */
  method ExpandStep(w: array<word>, j: nat) returns (x: word)
    requires 16 <= j < w.Length
    ensures x == ExpandWord(w[j - 16], w[j - 13], w[j - 9], w[j - 6], w[j - 3])
  {
    hide Xor, Rotl, P1;
    var temp1 := Xor(w[j - 16], w[j - 9]);
    var temp2 := Rotl(w[j - 3], 15);
    var temp3 := Xor(temp1, temp2);
    var temp4 := P1(temp3);
    var temp5 := Xor(Rotl(w[j - 13], 7), w[j - 6]);
    x := Xor(temp4, temp5);
    XorAssociates(temp4, Rotl(w[j - 13], 7), w[j - 6]);
  }

  lemma FirstWords(b: Block, j: nat)
    requires j < 16
    ensures W(b, j) == WordAt(b, 4 * j)
  {
  }

  lemma LaterWords(b: Block, j: nat)
    requires 16 <= j
    ensures W(b, j) == ExpandWord(W(b, j - 16), W(b, j - 13), W(b, j - 9), W(b, j - 6), W(b, j - 3))
  {
  }
}
