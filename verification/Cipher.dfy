/**
 The block cipher of a storage node (bfss_sn/bfss_keys.cpp): AES-256 in ECB mode, one key
 per device block. Section 6.1 of NIST SP 800-38A: every 16-byte unit is transformed on
 its own by a permutation that depends on the key only. The permutation is a parameter.
 */
module Cipher {
  import opened Layout

  type Unit = s: seq<Byte> | |s| == ALIGN witness seq(ALIGN, _ => 0)

  datatype UnitCipher = UnitCipher(enc: (int, Unit) -> Unit, dec: (int, Unit) -> Unit)

  ghost predicate Permutes(c: UnitCipher) {
    && (forall k, u :: c.dec(k, c.enc(k, u)) == u)
    && (forall k, u :: c.enc(k, c.dec(k, u)) == u)
  }

  type Ecb = c: UnitCipher | Permutes(c) witness UnitCipher((k, u) => u, (k, u) => u)

  function Encrypt(c: Ecb, k: int, text: seq<Byte>): (r: seq<Byte>)
    requires Aligned(|text|)
    ensures |r| == |text|
  {
    if text == [] then [] else c.enc(k, text[..ALIGN]) + Encrypt(c, k, text[ALIGN..])
  }

  function Decrypt(c: Ecb, k: int, text: seq<Byte>): (r: seq<Byte>)
    requires Aligned(|text|)
    ensures |r| == |text|
  {
    if text == [] then [] else c.dec(k, text[..ALIGN]) + Decrypt(c, k, text[ALIGN..])
  }

  /** Encryption and decryption under one block key undo each other. */
  lemma {:induction false} Inverse(c: Ecb, k: int, text: seq<Byte>)
    requires Aligned(|text|)
    ensures Decrypt(c, k, Encrypt(c, k, text)) == text
    ensures Encrypt(c, k, Decrypt(c, k, text)) == text
  {
    if text != [] {
      var first, rest := text[..ALIGN], text[ALIGN..];
      Inverse(c, k, rest);
      var e, d := Encrypt(c, k, text), Decrypt(c, k, text);
      assert e[..ALIGN] == c.enc(k, first) && e[ALIGN..] == Encrypt(c, k, rest);
      assert d[..ALIGN] == c.dec(k, first) && d[ALIGN..] == Decrypt(c, k, rest);
      assert text == first + rest;
    }
  }

  /** Every 16-byte unit is transformed on its own, by the permutation of the key. */
  lemma {:induction false} EncryptsUnits(c: Ecb, k: int, text: seq<Byte>, u: nat)
    requires Aligned(|text|) && 16 * u + 16 <= |text|
    ensures Encrypt(c, k, text)[16 * u..16 * u + 16] == c.enc(k, text[16 * u..16 * u + 16])
  {
    if u > 0 {
      EncryptsUnits(c, k, text[ALIGN..], u - 1);
      LaterUnit(text, u);
      LaterUnit(Encrypt(c, k, text), u);
    }
  }

  lemma {:induction false} DecryptsUnits(c: Ecb, k: int, text: seq<Byte>, u: nat)
    requires Aligned(|text|) && 16 * u + 16 <= |text|
    ensures Decrypt(c, k, text)[16 * u..16 * u + 16] == c.dec(k, text[16 * u..16 * u + 16])
  {
    if u > 0 {
      DecryptsUnits(c, k, text[ALIGN..], u - 1);
      LaterUnit(text, u);
      LaterUnit(Decrypt(c, k, text), u);
    }
  }

  lemma LaterUnit(text: seq<Byte>, u: nat)
    requires 0 < u && 16 * u + 16 <= |text|
    ensures text[16 * u..16 * u + 16] == text[ALIGN..][16 * (u - 1)..16 * (u - 1) + 16]
  {
  }

  lemma {:induction false} EncryptConcat(c: Ecb, k: int, a: seq<Byte>, b: seq<Byte>)
    requires Aligned(|a|) && Aligned(|b|)
    ensures Encrypt(c, k, a + b) == Encrypt(c, k, a) + Encrypt(c, k, b)
  {
    if a == [] {
      assert a + b == b;
    } else {
      assert (a + b)[..ALIGN] == a[..ALIGN];
      assert (a + b)[ALIGN..] == a[ALIGN..] + b;
      EncryptConcat(c, k, a[ALIGN..], b);
    }
  }

  /** An aligned slice of a ciphertext is the ciphertext of the slice. */
  lemma SliceCommutes(c: Ecb, k: int, text: seq<Byte>, lo: int, hi: int)
    requires Aligned(|text|) && Aligned(lo) && Aligned(hi) && 0 <= lo <= hi <= |text|
    ensures Encrypt(c, k, text)[lo..hi] == Encrypt(c, k, text[lo..hi])
  {
    Cut(c, k, text, lo);
    AlignedDifference(lo, hi);
    Cut(c, k, text[lo..], hi - lo);
    DropTake(text, lo, hi);
    DropTake(Encrypt(c, k, text), lo, hi);
  }

  lemma AlignedDifference(lo: int, hi: int)
    requires Aligned(lo) && Aligned(hi)
    ensures Aligned(hi - lo)
  {
  }

  lemma DropTake(s: seq<Byte>, lo: int, hi: int)
    requires 0 <= lo <= hi <= |s|
    ensures s[lo..][..hi - lo] == s[lo..hi]
  {
  }

  lemma Cut(c: Ecb, k: int, text: seq<Byte>, at: int)
    requires Aligned(|text|) && Aligned(at) && 0 <= at <= |text|
    ensures Aligned(|text[at..]|) && Encrypt(c, k, text)[at..] == Encrypt(c, k, text[at..])
    ensures Encrypt(c, k, text)[..at] == Encrypt(c, k, text[..at])
  {
    assert text == text[..at] + text[at..];
    EncryptConcat(c, k, text[..at], text[at..]);
  }
}
