/** Prefix lengths as dotted masks and back
    (internal/adapters/openwrt/routes.go, routes_write.go). */
module Netmasks {
  import opened Prefixes
  import opened LanAddresses

  /** The mask of `n` leading ones, as a number. */
  function MaskWord(n: nat): (m: nat)
    requires n <= 32
    ensures m < WORD
  {
    WordSize();
    Pow2Mono(32 - n, 32);
    WORD - Pow2(32 - n)
  }

  /** A byte with its `k`-th bit from the left set. */
  function SetBit(b: Byte, k: nat): Byte
    requires k < 8
  {
    var bit := Pow2(7 - k);
    Pow2Mono(7 - k, 7);
    if b / bit % 2 == 1 then b else if b + bit < 256 then b + bit else b
  }

  /** A byte of `k` leading ones; whole or empty outside 0 to 8. */
  function MaskByte(k: int): Byte {
    if k <= 0 then 0 else if k == 1 then 128 else if k == 2 then 192 else if k == 3 then 224
    else if k == 4 then 240 else if k == 5 then 248 else if k == 6 then 252 else if k == 7 then 254 else 255
  }

  lemma NextBit(k: nat)
    requires k < 8
    ensures SetBit(MaskByte(k), k) == MaskByte(k + 1)
  {
    assert Pow2(0) == 1 && Pow2(1) == 2 && Pow2(2) == 4 && Pow2(3) == 8;
    assert Pow2(4) == 16 && Pow2(5) == 32 && Pow2(6) == 64 && Pow2(7) == 128;
    hide Pow2;
    if k == 0 {} else if k == 1 {} else if k == 2 {} else if k == 3 {} else if k == 4 {} else if k == 5 {} else if k == 6 {}
  }

  lemma SmallPowers()
    ensures Pow2(0) == 1 && Pow2(1) == 2 && Pow2(2) == 4 && Pow2(3) == 8 && Pow2(4) == 16
    ensures Pow2(5) == 32 && Pow2(6) == 64 && Pow2(7) == 128 && Pow2(8) == 256
  {
    assert Pow2(4) == 16;
  }

  lemma ByteValue(k: nat)
    requires k <= 8
    ensures MaskByte(k) == 256 - Pow2(8 - k)
  {
    SmallPowers();
    hide Pow2;
    if k == 0 {} else if k == 1 {} else if k == 2 {} else if k == 3 {} else if k == 4 {} else if k == 5 {} else if k == 6 {} else if k == 7 {}
  }

  lemma BytesUp(j: nat)
    ensures Pow2(j + 8) == 0x100 * Pow2(j)
    ensures Pow2(j + 16) == 0x10000 * Pow2(j)
    ensures Pow2(j + 24) == 0x1000000 * Pow2(j)
  {
    SmallPowers();
    Pow2Add(8, 8);
    Pow2Add(8, 16);
    Pow2Add(j, 8);
    Pow2Add(j, 16);
    Pow2Add(j, 24);
    hide Pow2;
  }

  /** The four bytes of a mask spell the number with that many leading ones. */
  lemma MaskOfBytes(n: nat)
    requires n <= 32
    ensures ToUint(IPv4(MaskByte(n), MaskByte(n - 8), MaskByte(n - 16), MaskByte(n - 24))) == MaskWord(n)
  {
    hide Pow2, MaskByte;
    WholeBytes(n);
    if n < 8 {
      ByteValue(n);
      BytesUp(8 - n);
    } else if n < 16 {
      ByteValue(n - 8);
      BytesUp(16 - n);
    } else if n < 24 {
      ByteValue(n - 16);
      BytesUp(24 - n);
    } else {
      ByteValue(n - 24);
    }
  }

  lemma WholeBytes(n: nat)
    ensures n >= 8 ==> MaskByte(n) == 255
    ensures n >= 16 ==> MaskByte(n - 8) == 255
    ensures n >= 24 ==> MaskByte(n - 16) == 255
    ensures n >= 32 ==> MaskByte(n - 24) == 255
    ensures n <= 8 ==> MaskByte(n - 8) == 0
    ensures n <= 16 ==> MaskByte(n - 16) == 0
    ensures n <= 24 ==> MaskByte(n - 24) == 0
  {
  }

  /** The mask of a prefix length, one bit at a time. */
  method NetmaskOf(bits: nat) returns (mask: IPv4)
    requires bits <= 32
    ensures ToUint(mask) == MaskWord(bits)
  {
    hide Pow2, SetBit, MaskByte;
    var m := new Byte[4](i => 0);
    WholeBytes(0);
    assert MaskByte(0) == 0 by { WholeBytes(24); }
    for i := 0 to bits
      invariant m[0] == MaskByte(i) && m[1] == MaskByte(i - 8) && m[2] == MaskByte(i - 16) && m[3] == MaskByte(i - 24)
    {
      NextBit(i % 8);
      assert MaskByte(i + 1 - 8 * (i / 8)) == MaskByte(i % 8 + 1) && MaskByte(i - 8 * (i / 8)) == MaskByte(i % 8);
      WholeBytes(i);
      WholeBytes(i + 1);
      m[i / 8] := SetBit(m[i / 8], i % 8);
    }
    MaskOfBytes(bits);
    mask := IPv4(m[0], m[1], m[2], m[3]);
  }

  // ---- Back to a length ----

  /** `n` leading ones off, `rest` of the mask is left and `v` is that moved to
      the left of a 32-bit word. */
  predicate Shifted(mask: nat, n: nat, rest: nat, v: nat) {
    n <= 32 && mask == MaskWord(n) + rest && v == rest * Pow2(n) && v < WORD
  }

  lemma Halves(n: nat)
    requires n < 32
    ensures Pow2(31 - n) * Pow2(n) == 0x8000_0000 && MaskWord(n + 1) == MaskWord(n) + Pow2(31 - n)
    ensures Pow2(n + 1) == 2 * Pow2(n)
  {
    WordSize();
    Pow2Add(31 - n, n);
    Pow2Step(31);
    Pow2Step(31 - n);
    Pow2Step(n);
    hide Pow2;
    assert 31 - n + n == 31;
  }

  lemma Pow2Step(n: nat)
    ensures Pow2(n + 1) == 2 * Pow2(n)
  {
  }

  lemma ShiftOnce(mask: nat, n: nat, rest: nat, v: nat)
    requires Shifted(mask, n, rest, v) && v >= 0x8000_0000
    ensures n < 32 && rest >= Pow2(31 - n) && Shifted(mask, n + 1, rest - Pow2(31 - n), 2 * v % WORD)
  {
    WordSize();
    hide Pow2;
    assert n < 32;
    Halves(n);
    var half, p := Pow2(31 - n), Pow2(n);
    assert (rest + 1) * p == rest * p + p;
    if rest < half {
      MulMono(rest + 1, half, p);
    }
    assert (rest - half) * (2 * p) == 2 * (rest * p - half * p);
  }

  lemma MasksGrow(j: nat, k: nat)
    requires j < k <= 32
    ensures MaskWord(j) < MaskWord(k)
  {
    Pow2Mono(32 - k, 32 - j);
  }

  lemma NotAMask(mask: nat, n: nat, rest: nat, v: nat, k: nat)
    requires Shifted(mask, n, rest, v) && 0 < v < 0x8000_0000 && k <= 32
    ensures mask != MaskWord(k)
  {
    hide Pow2;
    assert rest > 0;
    if k <= n {
      if k < n { MasksGrow(k, n); }
    } else {
      Halves(n);
      var half := Pow2(31 - n);
      if rest >= half {
        MulMono(half, rest, Pow2(n));
      }
      if k > n + 1 { MasksGrow(n + 1, k); }
    }
  }

  /** The length of a mask; -1 exactly when its ones are not all on the left. */
  method MaskBits(mask: IPv4) returns (n: int)
    ensures -1 <= n <= 32
    ensures n >= 0 ==> ToUint(mask) == MaskWord(n)
    ensures n == -1 ==> forall k: nat :: k <= 32 ==> ToUint(mask) != MaskWord(k)
  {
    var v := ToUint(mask);
    ghost var rest: nat := v;
    n := 0;
    assert Pow2(0) == 1;
    WordSize();
    hide Pow2;
    assert Shifted(v, 0, v, v);
    hide Shifted;
    while v >= 0x8000_0000
      invariant 0 <= n <= 32 && 0 <= v < WORD && Shifted(ToUint(mask), n, rest, v)
      decreases 33 - n
    {
      ShiftOnce(ToUint(mask), n, rest, v);
      rest := rest - Pow2(31 - n);
      n := n + 1;
      v := 2 * v % WORD;
    }
    if v != 0 {
      forall k: nat | k <= 32 ensures ToUint(mask) != MaskWord(k) {
        NotAMask(ToUint(mask), n, rest, v, k);
      }
      return -1;
    }
    NothingLeft(ToUint(mask), n, rest);
  }

  lemma NothingLeft(mask: nat, n: nat, rest: nat)
    requires Shifted(mask, n, rest, 0)
    ensures mask == MaskWord(n)
  {
    if rest > 0 {
      MulMono(1, rest, Pow2(n));
    }
  }

  /** Only one length has a mask, so a length written as a mask reads back. */
  lemma MasksDiffer(j: nat, k: nat)
    requires j <= 32 && k <= 32 && MaskWord(j) == MaskWord(k)
    ensures j == k
  {
    if j < k { MasksGrow(j, k); } else if k < j { MasksGrow(k, j); }
  }

  method WrittenThenRead(bits: nat) returns (n: int)
    requires bits <= 32
    ensures n == bits
  {
    var mask := NetmaskOf(bits);
    n := MaskBits(mask);
    MasksDiffer(bits, if n >= 0 then n else 0);
  }
}
