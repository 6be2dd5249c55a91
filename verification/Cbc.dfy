/**
 * cbc_mode.c: cipher block chaining (section 6.2 of NIST SP 800-38A) over blocks of
 * 16 bytes, a byte at a time in caller-owned buffers.  The block cipher is a parameter.
 */
module Cbc {

  type Byte = bv8

  type Bytes = seq<Byte>

  type Block = b: Bytes | |b| == 16 witness seq(16, _ => 0)

  /** The block cipher under one key. */
  type Cipher = Block -> Block

  ghost predicate Inverse(enc: Cipher, dec: Cipher) { forall b: Block :: dec(enc(b)) == b }

  // ---- exclusive or ---------------------------------------------------------------------

  function XorByte(a: Byte, b: Byte): Byte { a ^ b }

  /** Bit k is set in the result exactly if it is set in one of the two. */
  lemma XorBits(a: Byte, b: Byte, k: nat)
    requires k < 8
    ensures (XorByte(a, b) >> k) & 1 == 1 <==> ((a >> k) & 1 == 1) != ((b >> k) & 1 == 1)
  {
    if k == 0 {} else if k == 1 {} else if k == 2 {} else if k == 3 {} else if k == 4 {} else if k == 5 {} else if k == 6 {} else {}
  }

  lemma XorTwice(a: Byte, b: Byte)
    ensures XorByte(XorByte(a, b), a) == b
  {}

  /** The way two bytes are mixed; everything but the two entry points takes it as it is. */
  type Mix = (Byte, Byte) -> Byte

  ghost predicate Undoes(mix: Mix) { forall a: Byte, b: Byte :: mix(mix(a, b), a) == b }

  lemma XorUndoes()
    ensures Undoes(XorByte)
  {
    forall a: Byte, b: Byte ensures XorByte(XorByte(a, b), a) == b { XorTwice(a, b); }
  }

  function Mixed(mix: Mix, a: Bytes, b: Bytes): (r: Bytes)
    requires |a| == |b|
    ensures |r| == |a| && forall i :: 0 <= i < |a| ==> r[i] == mix(a[i], b[i])
  {
    seq(|a|, i requires 0 <= i < |a| => mix(a[i], b[i]))
  }

  lemma MixUndone(mix: Mix, a: Bytes, b: Bytes)
    requires Undoes(mix) && |a| == |b|
    ensures Mixed(mix, Mixed(mix, a, b), a) == b
  {
    forall i | 0 <= i < |a| ensures Mixed(mix, Mixed(mix, a, b), a)[i] == b[i] {
      var x, y := a[i], b[i];
      assert mix(mix(x, y), x) == y;
    }
  }

  // ---- chaining -----------------------------------------------------------------------------

  /** The k-th block of a byte string. */
  function BlockAt(s: Bytes, k: nat): (b: Block)
    requires 16 * k + 16 <= |s|
  {
    s[16 * k..16 * k + 16]
  }

  /** The IV, then for each of k blocks the encryption of it XORed with the output block before. */
  function Chain(mix: Mix, enc: Cipher, iv: Block, p: Bytes, k: nat): (c: Bytes)
    requires 16 * k <= |p|
    ensures |c| == 16 * k + 16
  {
    if k == 0 then iv
    else
      var c := Chain(mix, enc, iv, p, k - 1);
      c + enc(Mixed(mix, BlockAt(c, k - 1), BlockAt(p, k - 1)))
  }

  /** For each of k blocks behind the first, its decryption XORed with the block before it. */
  function Unchain(mix: Mix, dec: Cipher, c: Bytes, k: nat): (p: Bytes)
    requires 16 * k + 16 <= |c|
    ensures |p| == 16 * k
  {
    if k == 0 then [] else Unchain(mix, dec, c, k - 1) + Mixed(mix, dec(BlockAt(c, k)), BlockAt(c, k - 1))
  }

  lemma BlockOfConcat(a: Bytes, b: Bytes, j: nat)
    requires 16 * j + 16 <= |a|
    ensures BlockAt(a + b, j) == BlockAt(a, j)
  {}

  lemma LastBlock(a: Bytes, b: Block, k: nat)
    requires |a| == 16 * k
    ensures BlockAt(a + b, k) == b
  {}

  /** Section 6.2 of NIST SP 800-38A: output block 0 is the IV, and block j + 1 comes from block j. */
  lemma {:induction false} ChainBlocks(mix: Mix, enc: Cipher, iv: Block, p: Bytes, k: nat, j: nat)
    requires 16 * k <= |p|
    ensures BlockAt(Chain(mix, enc, iv, p, k), 0) == iv
    ensures j < k ==>
              var c := Chain(mix, enc, iv, p, k);
              BlockAt(c, j + 1) == enc(Mixed(mix, BlockAt(c, j), BlockAt(p, j)))
  {
    if k > 0 {
      var c := Chain(mix, enc, iv, p, k - 1);
      var last := enc(Mixed(mix, BlockAt(c, k - 1), BlockAt(p, k - 1)));
      ChainBlocks(mix, enc, iv, p, k - 1, j);
      BlockOfConcat(c, last, 0);
      if j < k { BlockOfConcat(c, last, j); }
      if j + 1 < k { BlockOfConcat(c, last, j + 1); } else { LastBlock(c, last, k); }
    }
  }

  /** And back: block j of the plaintext is the decryption of block j + 1, XORed with block j. */
  lemma {:induction false} UnchainBlocks(mix: Mix, dec: Cipher, c: Bytes, k: nat, j: nat)
    requires 16 * k + 16 <= |c| && j < k
    ensures BlockAt(Unchain(mix, dec, c, k), j) == Mixed(mix, dec(BlockAt(c, j + 1)), BlockAt(c, j))
  {
    var p, last := Unchain(mix, dec, c, k - 1), Mixed(mix, dec(BlockAt(c, k)), BlockAt(c, k - 1));
    if j < k - 1 {
      UnchainBlocks(mix, dec, c, k - 1, j);
      BlockOfConcat(p, last, j);
    } else {
      LastBlock(p, last, k - 1);
    }
  }

  /** Decryption only looks at the blocks it is asked for. */
  lemma {:induction false} UnchainLocal(mix: Mix, dec: Cipher, c: Bytes, more: Bytes, k: nat)
    requires 16 * k + 16 <= |c|
    ensures Unchain(mix, dec, c + more, k) == Unchain(mix, dec, c, k)
  {
    if k > 0 {
      UnchainLocal(mix, dec, c, more, k - 1);
      BlockOfConcat(c, more, k);
      BlockOfConcat(c, more, k - 1);
    }
  }

  lemma UnchainSnoc(mix: Mix, dec: Cipher, c: Bytes, last: Block, k: nat)
    requires k > 0 && |c| == 16 * k
    ensures Unchain(mix, dec, c + last, k) == Unchain(mix, dec, c, k - 1) + Mixed(mix, dec(last), BlockAt(c, k - 1))
  {
    UnchainLocal(mix, dec, c, last, k - 1);
    BlockOfConcat(c, last, k - 1);
    LastBlock(c, last, k);
  }

  /** Decryption gives the plaintext back, for every cipher, IV and number of blocks. */
  lemma {:induction false} RoundTrip(mix: Mix, enc: Cipher, dec: Cipher, iv: Block, p: Bytes, k: nat)
    requires Undoes(mix) && Inverse(enc, dec) && 16 * k <= |p|
    ensures Unchain(mix, dec, Chain(mix, enc, iv, p, k), k) == p[..16 * k]
  {
    if k > 0 {
      var c := Chain(mix, enc, iv, p, k - 1);
      var before, block := BlockAt(c, k - 1), BlockAt(p, k - 1);
      RoundTrip(mix, enc, dec, iv, p, k - 1);
      UnchainSnoc(mix, dec, c, enc(Mixed(mix, before, block)), k);
      MixUndone(mix, before, block);
      assert p[..16 * k] == p[..16 * (k - 1)] + block;
    }
  }

  /** The first m bytes of the buffer are XORed with those of the block already. */
  predicate Half(mix: Mix, buffer: Bytes, before: Bytes, block: Bytes, m: nat)
    requires |buffer| == |before| == |block| == 16 && m <= 16
  {
    && (forall i :: 0 <= i < m ==> buffer[i] == mix(before[i], block[i]))
    && (forall i :: m <= i < 16 ==> buffer[i] == before[i])
  }

  /** `_copy` of one block. */
  method Copy(to: array<Byte>, at: nat, from: array<Byte>)
    requires at + 16 <= to.Length && 16 <= from.Length && to != from
    modifies to
    ensures to[..at] == old(to[..at]) && to[at..at + 16] == from[..16] && to[at + 16..] == old(to[at + 16..])
  {
    forall i | 0 <= i < 16 { to[at + i] := from[i]; }
  }

  // ---- encryption ---------------------------------------------------------------------

  /** `tc_cbc_mode_encrypt`: the IV, then the chained blocks. */
  method Encrypt(out: array<Byte>, outlen: nat, input: array<Byte>, inlen: nat, iv: array<Byte>, enc: Cipher)
    returns (ok: bool)
    requires out != input && out != iv
    requires out.Length >= outlen && input.Length >= inlen && iv.Length >= 16
    modifies out
    ensures ok <==> inlen > 0 && inlen % 16 == 0 && outlen == inlen + 16
    ensures !ok ==> out[..] == old(out[..])
    ensures ok ==> out[..outlen] == Chain(XorByte, enc, iv[..16], input[..], inlen / 16) && out[outlen..] == old(out[outlen..])
  {
    if inlen == 0 || outlen == 0 || inlen % 16 != 0 || outlen % 16 != 0 || outlen != inlen + 16 {
      return false;
    }
    var buffer := new Byte[16];
    Copy(buffer, 0, iv);
    Copy(out, 0, iv);
    ghost var was := old(out[outlen..]);
    assert out[outlen..] == out[16..][outlen - 16..] == was;
    EncryptBlocks(XorByte, out, input, inlen, iv[..16], buffer, enc, inlen / 16);
    ok := true;
  }

  /** k blocks are out, and the buffer holds the last of them with m bytes of the next one XORed in. */
  ghost predicate Doing(mix: Mix, enc: Cipher, iv: Block, text: Bytes, c: Bytes, k: nat, buffer: Bytes, m: nat) {
    && |buffer| == 16 && m <= 16 && 16 * k <= |text|
    && c == Chain(mix, enc, iv, text, k)
    && (m > 0 ==> 16 * k + 16 <= |text| && Half(mix, buffer, BlockAt(c, k), BlockAt(text, k), m))
    && (m == 0 ==> buffer == BlockAt(c, k))
  }

  lemma DoMore(mix: Mix, before: Block, block: Block, buffer: Bytes, m: nat)
    requires |buffer| == 16 && m < 16
    requires if m == 0 then buffer == before else Half(mix, buffer, before, block, m)
    ensures Half(mix, buffer[m := mix(buffer[m], block[m])], before, block, m + 1)
  {}

  lemma HalfDone(mix: Mix, before: Block, block: Block, buffer: Bytes)
    requires |buffer| == 16 && Half(mix, buffer, before, block, 16)
    ensures buffer == Mixed(mix, before, block)
  {}

  lemma DoBlock(mix: Mix, enc: Cipher, iv: Block, text: Bytes, c: Bytes, k: nat, buffer: Bytes)
    requires Doing(mix, enc, iv, text, c, k, buffer, 16)
    ensures |enc(buffer)| == 16 && Doing(mix, enc, iv, text, c + enc(buffer), k + 1, enc(buffer), 0)
  {
    HalfDone(mix, BlockAt(c, k), BlockAt(text, k), buffer);
    LastBlock(c, enc(buffer), k + 1);
  }

  method MixByte(mix: Mix, buffer: array<Byte>, m: nat, x: Byte, ghost before: Block, ghost block: Block)
    requires buffer.Length == 16 && m < 16 && x == block[m]
    requires if m == 0 then buffer[..] == before else Half(mix, buffer[..], before, block, m)
    modifies buffer
    ensures Half(mix, buffer[..], before, block, m + 1)
  {
    DoMore(mix, before, block, buffer[..], m);
    buffer[m] := mix(buffer[m], x);
    assert buffer[..] == old(buffer[..])[m := mix(old(buffer[m]), x)];
  }

  /** One block through the cipher in place, and out; what lies behind stays. */
  method Emit(out: array<Byte>, at: nat, buffer: array<Byte>, enc: Cipher, ghost rest: Bytes)
    requires buffer.Length == 16 && at + 16 <= out.Length && out != buffer
    requires |rest| <= out.Length - at - 16 && out[out.Length - |rest|..] == rest
    modifies out, buffer
    ensures buffer[..] == enc(old(buffer[..])) && out[..at + 16] == old(out[..at]) + buffer[..]
    ensures out[out.Length - |rest|..] == rest
  {
    var r := enc(buffer[..]);
    forall i | 0 <= i < 16 { buffer[i] := r[i]; }
    Copy(out, at, buffer);
    assert out[..at + 16] == out[..at] + out[at..at + 16];
    assert out[out.Length - |rest|..] == out[at + 16..][out.Length - |rest| - at - 16..];
  }

  /** The byte loop, with the counters of its block. */
  method EncryptBlocks(mix: Mix, out: array<Byte>, input: array<Byte>, inlen: nat, ghost iv: Block, buffer: array<Byte>,
                       enc: Cipher, ghost blocks: nat)
    requires out != input && out != buffer && input != buffer
    requires inlen == 16 * blocks && out.Length >= inlen + 16 && input.Length >= inlen && buffer.Length == 16
    requires out[..16] == iv && buffer[..] == iv
    modifies out, buffer
    ensures out[..inlen + 16] == Chain(mix, enc, iv, input[..], blocks)
    ensures out[inlen + 16..] == old(out[inlen + 16..])
  {
    var at := 16;
    var n, m := 0, 0;
    ghost var k, text, rest := 0, input[..], out[inlen + 16..];
    while n < inlen
      invariant 0 <= m < 16 && 0 <= k <= blocks && n == 16 * k + m && at == 16 * k + 16 && n <= inlen
      invariant Doing(mix, enc, iv, text, out[..at], k, buffer[..], m)
      invariant out[inlen + 16..] == rest
      decreases inlen - n
    {
      MixByte(mix, buffer, m, input[n], BlockAt(out[..at], k), BlockAt(text, k));
      m := m + 1;
      k, at, m := NextByte(mix, out, at, buffer, m, enc, iv, text, k, rest);
      n := n + 1;
    }
  }

  /** A full buffer goes through the cipher and out. */
  method NextByte(mix: Mix, out: array<Byte>, at: nat, buffer: array<Byte>, m: nat, enc: Cipher,
                  ghost iv: Block, ghost text: Bytes, ghost k: nat, ghost rest: Bytes)
    returns (ghost k': nat, at': nat, m': nat)
    requires buffer.Length == 16 && m <= 16 && at == 16 * k + 16 && at + 16 <= out.Length && out != buffer
    requires Doing(mix, enc, iv, text, out[..at], k, buffer[..], m)
    requires |rest| <= out.Length - at - 16 && out[out.Length - |rest|..] == rest
    modifies out, buffer
    ensures m < 16 ==> k' == k && m' == m
    ensures m == 16 ==> k' == k + 1 && m' == 0
    ensures at' == 16 * k' + 16 && at' <= out.Length && Doing(mix, enc, iv, text, out[..at'], k', buffer[..], m')
    ensures out[out.Length - |rest|..] == rest
  {
    k', at', m' := k, at, m;
    if m == 16 {
      FinishBlock(mix, out, at, buffer, enc, iv, text, k, rest);
      k', at', m' := k + 1, at + 16, 0;
    }
  }

  method FinishBlock(mix: Mix, out: array<Byte>, at: nat, buffer: array<Byte>, enc: Cipher,
                     ghost iv: Block, ghost text: Bytes, ghost k: nat, ghost rest: Bytes)
    requires buffer.Length == 16 && at == 16 * k + 16 && at + 16 <= out.Length && out != buffer
    requires Doing(mix, enc, iv, text, out[..at], k, buffer[..], 16)
    requires |rest| <= out.Length - at - 16 && out[out.Length - |rest|..] == rest
    modifies out, buffer
    ensures Doing(mix, enc, iv, text, out[..at + 16], k + 1, buffer[..], 0)
    ensures out[out.Length - |rest|..] == rest
  {
    DoBlock(mix, enc, iv, text, out[..at], k, buffer[..]);
    Emit(out, at, buffer, enc, rest);
  }

  // ---- decryption ------------------------------------------------------------------------

  /**
   * `tc_cbc_mode_decrypt`, on a buffer that holds the IV and the ciphertext behind it:
   * `in` points one block into it, `iv` at its start.  The loop runs over `inlen`
   * bytes, a block more than the plaintext has, so both buffers have that much room.
   */
  method Decrypt(out: array<Byte>, outlen: nat, sealed: array<Byte>, inlen: nat, dec: Cipher) returns (ok: bool)
    requires out != sealed && out.Length >= inlen && sealed.Length >= inlen + 16
    modifies out
    ensures ok <==> outlen > 0 && outlen % 16 == 0 && inlen == outlen + 16
    ensures !ok ==> out[..] == old(out[..])
    ensures ok ==> out[..outlen] == Unchain(XorByte, dec, sealed[..], outlen / 16)
  {
    if inlen == 0 || outlen == 0 || inlen % 16 != 0 || outlen % 16 != 0 || inlen != outlen + 16 {
      return false;
    }
    DecryptBlocks(XorByte, out, sealed, inlen, dec, inlen / 16);
    UnchainFirst(XorByte, dec, sealed[..], outlen / 16);
    assert out[..outlen] == out[..inlen][..outlen];
    ok := true;
  }

  lemma UnchainFirst(mix: Mix, dec: Cipher, c: Bytes, k: nat)
    requires 16 * k + 32 <= |c|
    ensures Unchain(mix, dec, c, k + 1)[..16 * k] == Unchain(mix, dec, c, k)
  {}

  method Load(buffer: array<Byte>, block: Block)
    requires buffer.Length == 16
    modifies buffer
    ensures buffer[..] == block
  {
    forall i | 0 <= i < 16 { buffer[i] := block[i]; }
  }

  /** m bytes of the next block are the buffer XORed with the block before the one in it. */
  ghost predicate Undoing(mix: Mix, before: Block, buffer: Bytes, p: Bytes, m: nat) {
    |buffer| == 16 && |p| == m <= 16 && forall i :: 0 <= i < m ==> p[i] == mix(buffer[i], before[i])
  }

  lemma UndoDone(mix: Mix, before: Block, buffer: Bytes, p: Bytes)
    requires Undoing(mix, before, buffer, p, 16)
    ensures p == Mixed(mix, buffer, before)
  {}

  method OpenByte(mix: Mix, out: array<Byte>, n: nat, buffer: array<Byte>, m: nat, x: Byte, ghost before: Block, ghost base: nat)
    requires out != buffer && m < 16 && n == base + m < out.Length && x == before[m]
    requires Undoing(mix, before, buffer[..], out[base..n], m)
    modifies out
    ensures Undoing(mix, before, buffer[..], out[base..n + 1], m + 1) && out[..base] == old(out[..base])
  {
    out[n] := mix(buffer[m], x);
    assert out[base..n + 1] == old(out[base..n]) + [mix(buffer[m], x)];
  }

  lemma BlockStart(k: nat, n: nat)
    requires 16 * k <= n < 16 * k + 16
    ensures n % 16 == 0 <==> n == 16 * k
  {}

  method DecryptBlocks(mix: Mix, out: array<Byte>, sealed: array<Byte>, inlen: nat, dec: Cipher, ghost blocks: nat)
    requires out != sealed && inlen == 16 * blocks && out.Length >= inlen && sealed.Length >= inlen + 16
    modifies out
    ensures out[..inlen] == Unchain(mix, dec, sealed[..], blocks)
  {
    var buffer := new Byte[16];
    var n, m, at := 0, 0, 16;
    ghost var k, c := 0, sealed[..];
    while n < inlen
      invariant 0 <= k <= blocks && 16 * k <= n < 16 * k + 16 && n <= inlen
      invariant out[..16 * k] == Unchain(mix, dec, c, k)
      invariant n == 16 * k ==> at == n + 16
      invariant n > 16 * k ==> m == n - 16 * k && at == 16 * k + 32 && k < blocks
      invariant n > 16 * k ==> Loaded(mix, dec, c, k, buffer[..], out[16 * k..n], m)
      decreases inlen - n
    {
      BlockStart(k, n);
      if n % 16 == 0 {
        Load(buffer, dec(sealed[at..at + 16]));
        at := at + 16;
        m := 0;
      }
      assert Loaded(mix, dec, c, k, buffer[..], out[16 * k..n], m);
      OpenByte(mix, out, n, buffer, m, sealed[n], BlockAt(c, k), 16 * k);
      n, m := n + 1, m + 1;
      if m == 16 {
        BlockOpened(mix, dec, c, k, buffer[..], out[..n]);
        k := k + 1;
      }
    }
  }

  /** The buffer holds block k + 1 decrypted, and m bytes of it are out. */
  ghost predicate Loaded(mix: Mix, dec: Cipher, c: Bytes, k: nat, buffer: Bytes, p: Bytes, m: nat) {
    16 * k + 32 <= |c| && buffer == dec(BlockAt(c, k + 1)) && Undoing(mix, BlockAt(c, k), buffer, p, m)
  }

  lemma BlockOpened(mix: Mix, dec: Cipher, c: Bytes, k: nat, buffer: Bytes, p: Bytes)
    requires 16 * k + 16 <= |c| && |p| == 16 * k + 16 && p[..16 * k] == Unchain(mix, dec, c, k)
    requires Loaded(mix, dec, c, k, buffer, p[16 * k..], 16)
    ensures p == Unchain(mix, dec, c, k + 1)
  {
    UndoDone(mix, BlockAt(c, k), buffer, p[16 * k..]);
    assert p == p[..16 * k] + p[16 * k..];
  }

  /** What `Encrypt` puts out, with whatever lies behind it, `Decrypt` opens to the plaintext. */
  lemma DecryptUndoesEncrypt(enc: Cipher, dec: Cipher, iv: Block, p: Bytes, more: Bytes, k: nat)
    requires Inverse(enc, dec) && |p| == 16 * k
    ensures Unchain(XorByte, dec, Chain(XorByte, enc, iv, p, k) + more, k) == p
  {
    XorUndoes();
    RoundTrip(XorByte, enc, dec, iv, p, k);
    UnchainLocal(XorByte, dec, Chain(XorByte, enc, iv, p, k), more, k);
  }
}
