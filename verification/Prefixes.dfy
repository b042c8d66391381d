/** Addresses and networks of both families, as the daemon uses `netip.Prefix`.
    An address is the number its bytes spell in network order. */
module Prefixes {

  datatype Family = V4 | V6

  function Width(f: Family): nat {
    match f
    case V4 => 32
    case V6 => 128
  }

  function Pow2(n: nat): (r: nat)
    ensures r >= 1
  {
    if n == 0 then 1 else 2 * Pow2(n - 1)
  }

  /** `a` with its low part cleared, counting in steps of `step`. */
  function Align(a: nat, step: nat): (r: nat)
    requires step >= 1
    ensures r <= a < r + step && r % step == 0
  {
    var q := a / step;
    MulMod(q, step);
    q * step
  }

  lemma MulMod(q: nat, n: nat)
    requires n >= 1
    ensures (q * n) % n == 0
  {
    var d := (q * n) / n;
    assert (d + 1) * n == d * n + n;
    if d < q {
      MulMono(d + 1, q, n);
    } else {
      MulMono(q, d, n);
    }
  }

  lemma MulMono(a: nat, b: nat, n: nat)
    requires a <= b
    ensures a * n <= b * n
  {
    assert b * n == a * n + (b - a) * n;
  }

  /** A multiple of `step` is already aligned. */
  lemma AlignFixed(a: nat, step: nat)
    requires step >= 1 && a % step == 0
    ensures Align(a, step) == a
  {
    var q := a / step;
    assert a == q * step;
  }

  /** A network written `addr/bits`; host bits may be set (see Masked). */
  datatype Prefix = Prefix(family: Family, addr: nat, bits: nat) {
    predicate Valid() {
      bits <= Width(family) && addr < Pow2(Width(family))
    }

    /** How many addresses the network holds. */
    function Size(): (r: nat)
      requires Valid()
      ensures r >= 1
    {
      Pow2(Width(family) - bits)
    }

    predicate Aligned()
      requires Valid()
    {
      addr % Size() == 0
    }

    /** The network with its host bits cleared. */
    function Masked(): (p: Prefix)
      requires Valid()
      ensures p.Valid() && p.Aligned() && p.family == family && p.bits == bits
    {
      this.(addr := Align(addr, Size()))
    }

    /** The address lies in the network. */
    predicate Contains(a: nat)
      requires Valid()
    {
      var base := Align(addr, Size());
      base <= a < base + Size()
    }
  }

  /** The network of all addresses. */
  function Everything(f: Family): Prefix { Prefix(f, 0, 0) }

  /** Clearing host bits does not change which addresses a network holds. */
  lemma MaskedSame(p: Prefix, a: nat)
    requires p.Valid()
    ensures p.Masked().Contains(a) <==> p.Contains(a)
  {
    hide Pow2;
    AlignFixed(p.Masked().addr, p.Size());
  }

  /** An aligned network is the interval that starts at its address. */
  lemma AlignedInterval(p: Prefix, a: nat)
    requires p.Valid() && p.Aligned()
    ensures p.Contains(a) <==> p.addr <= a < p.addr + p.Size()
  {
    AlignFixed(p.addr, p.Size());
  }

  lemma EverythingContains(f: Family, a: nat)
    requires a < Pow2(Width(f))
    ensures Everything(f).Valid() && Everything(f).Contains(a)
  {
    hide Pow2;
    AlignedInterval(Everything(f), a);
  }

  lemma Pow2Add(a: nat, b: nat)
    ensures Pow2(a + b) == Pow2(a) * Pow2(b)
  {
    if a != 0 {
      Pow2Add(a - 1, b);
      assert 2 * (Pow2(a - 1) * Pow2(b)) == (2 * Pow2(a - 1)) * Pow2(b);
    }
  }

  lemma Pow2Mono(a: nat, b: nat)
    requires a <= b
    ensures Pow2(a) <= Pow2(b)
    ensures a < b ==> Pow2(a) < Pow2(b)
  {
    if a < b {
      Pow2Mono(a, b - 1);
    }
  }

  ghost predicate Overlap(p: Prefix, q: Prefix)
    requires p.Valid() && q.Valid()
  {
    p.family == q.family && exists a: nat :: p.Contains(a) && q.Contains(a)
  }

  /** Two aligned networks share an address exactly when one holds the other's
      base address: the two-way test the guest subnet search uses. */
  lemma OverlapIsBaseContainment(p: Prefix, q: Prefix)
    requires p.Valid() && q.Valid() && p.family == q.family
    requires p.Aligned() && q.Aligned()
    ensures Overlap(p, q) <==> p.Contains(q.addr) || q.Contains(p.addr)
  {
    AlignedInterval(p, q.addr);
    AlignedInterval(q, p.addr);
    AlignedInterval(p, p.addr);
    AlignedInterval(q, q.addr);
    if Overlap(p, q) {
      var a: nat :| p.Contains(a) && q.Contains(a);
      AlignedInterval(p, a);
      AlignedInterval(q, a);
    }
  }
}
