/** The address pool, the netmask and the lease time between what the panel
    shows and what the router stores (internal/adapters/openwrt/lan.go,
    lan_write.go, routes.go, routes_write.go). Addresses are 32 bits wide and
    the router's integers 64; a network is `addr/bits` as in section 3.1 of
    RFC 4632. */
module LanAddresses {
  import opened Outcomes
  import opened Text
  import opened Prefixes

  const WORD: nat := 0x1_0000_0000
  const INT64: int := 0x8000_0000_0000_0000

  type Byte = b: nat | b < 256

  /** The four bytes of an address, the first one first. */
  datatype IPv4 = IPv4(a: Byte, b: Byte, c: Byte, d: Byte)

  function ToUint(ip: IPv4): (n: nat)
    ensures n < WORD
  {
    ip.a * 0x1000000 + ip.b * 0x10000 + ip.c * 0x100 + ip.d
  }

  function FromUint(n: nat): IPv4
    requires n < WORD
  {
    IPv4(n / 0x1000000, n / 0x10000 % 256, n / 0x100 % 256, n % 256)
  }

  lemma BytesOfWord(n: nat)
    requires n < WORD
    ensures ToUint(FromUint(n)) == n
  {
    var c, b, a := n / 0x100, n / 0x10000, n / 0x1000000;
    Nested(n);
    assert n == c * 0x100 + n % 0x100 && c == b * 0x100 + c % 0x100 && b == a * 0x100 + b % 0x100;
  }

  lemma Nested(n: nat)
    ensures n / 0x10000 == n / 0x100 / 0x100 && n / 0x1000000 == n / 0x10000 / 0x100
  {
    var c, b := n / 0x100, n / 0x100 / 0x100;
    assert b * 0x10000 <= n < b * 0x10000 + 0x10000;
    var a := n / 0x10000 / 0x100;
    assert a * 0x1000000 <= n < a * 0x1000000 + 0x1000000;
  }

  lemma WordOfBytes(ip: IPv4)
    ensures FromUint(ToUint(ip)) == ip
  {
    var n := ToUint(ip);
    assert n / 0x100 == ip.a * 0x10000 + ip.b * 0x100 + ip.c;
    assert n / 0x10000 == ip.a * 0x100 + ip.b;
    assert n / 0x1000000 == ip.a;
  }

  /** What a 64-bit signed sum comes to. */
  function Wrap64(x: int): int { (x + INT64) % (2 * INT64) - INT64 }

  lemma WrapOnce(x: int)
    requires -2 * INT64 <= x < 2 * INT64
    ensures Wrap64(x) == if x < -INT64 then x + 2 * INT64 else if x < INT64 then x else x - 2 * INT64
  {
  }

  predicate Int64(x: int) { -INT64 <= x < INT64 }

  function AddOffset(base: IPv4, offset: int): Option<IPv4> {
    if offset < 0 then None
    else
      var sum := ToUint(base) + offset;
      if sum > 0xFFFFFFFF then None else Some(FromUint(sum))
  }

  /** A network as the router's own address and mask give it. */
  predicate Network(p: Prefix) { p.Valid() && p.family == V4 && p.Aligned() }

  lemma NetworkFits(p: Prefix)
    requires Network(p)
    ensures Pow2(32) == WORD && p.addr < WORD && p.addr + p.Size() <= WORD
  {
    hide Pow2, Align;
    WordSize();
    Pow2Add(32 - p.bits, p.bits);
    assert 32 - p.bits + p.bits == 32;
    var size, count := p.Size(), Pow2(p.bits);
    assert count * size == size * count == WORD;
    LastStep(p.addr, size, count);
  }

  lemma LastStep(a: nat, size: nat, count: nat)
    requires size >= 1 && a % size == 0 && a < count * size
    ensures a + size <= count * size
  {
    var q := a / size;
    assert a == q * size;
    if q >= count {
      MulMono(count, q, size);
    } else {
      MulMono(q + 1, count, size);
      assert (q + 1) * size == q * size + size;
    }
  }

  lemma WordSize()
    ensures Pow2(32) == WORD
  {
    assert Pow2(8) == 256;
    Pow2Add(8, 8);
    Pow2Add(16, 16);
  }

  predicate Holds(network: Prefix, ip: IPv4)
    requires Network(network)
  {
    network.Contains(ToUint(ip))
  }

  /** The ends of the pool that starts `start` addresses into the network and
      has `limit` of them; none when it runs past the network. */
  function PoolIn(network: Prefix, start: int, limit: int): Option<(IPv4, IPv4)>
    requires Network(network)
  {
    NetworkFits(network);
    var base := FromUint(network.addr);
    var first, last := AddOffset(base, start), AddOffset(base, Wrap64(start + limit - 1));
    if first.None? || last.None? || !Holds(network, first.value) || !Holds(network, last.value) then None
    else Some((first.value, last.value))
  }

  /** The local network: the interface's first IPv4 one. */
  function LanNetwork(addresses: seq<Prefix>): (r: Option<Prefix>)
    requires forall p :: p in addresses ==> p.Valid()
    ensures r.Some? ==> Network(r.value)
  {
    if addresses == [] then None
    else if addresses[0].family == V6 then LanNetwork(addresses[1..])
    else Some(addresses[0].Masked())
  }

  function PoolRange(addresses: seq<Prefix>, start: int, limit: int): Option<(IPv4, IPv4)>
    requires forall p :: p in addresses ==> p.Valid()
  {
    var network := LanNetwork(addresses);
    if network.None? then None else PoolIn(network.value, start, limit)
  }

  datatype Field = First | Last

  /** The offset and count to store for two addresses. */
  function PoolOffsets(network: Prefix, first: IPv4, last: IPv4): Result<(int, int), Field>
    requires Network(network)
  {
    if !Holds(network, first) then Err(First)
    else if !Holds(network, last) then Err(Last)
    else
      var base, f, l := network.addr, ToUint(first), ToUint(last);
      if l < f then Err(Last)
      else
        var start, count := (f - base) % WORD, (l - f) % WORD + 1;
        if start == 0 then Err(First) else Ok((start, count))
  }

  lemma HoldsIsInterval(network: Prefix, ip: IPv4)
    requires Network(network)
    ensures Holds(network, ip) <==> network.addr <= ToUint(ip) < network.addr + network.Size()
  {
    AlignedInterval(network, ToUint(ip));
  }

  /** A pool is shown exactly when both its ends are in the network, with no
      number wrapping round on the way. */
  lemma PoolIsExact(network: Prefix, start: int, limit: int)
    requires Network(network) && Int64(start) && Int64(limit)
    ensures PoolIn(network, start, limit).Some? <==>
      0 <= start < network.Size() && 0 <= start + limit - 1 < network.Size()
    ensures PoolIn(network, start, limit).Some? ==>
      ToUint(PoolIn(network, start, limit).value.0) == network.addr + start
      && ToUint(PoolIn(network, start, limit).value.1) == network.addr + start + limit - 1
  {
    hide Prefix.Size, Prefix.Contains, Prefix.Aligned, Holds, ToUint, FromUint, Wrap64;
    NetworkFits(network);
    var base, end := FromUint(network.addr), start + limit - 1;
    BytesOfWord(network.addr);
    var first, last := AddOffset(base, start), AddOffset(base, Wrap64(end));
    if first.Some? {
      WrapOnce(end);
      BytesOfWord(network.addr + start);
      HoldsIsInterval(network, first.value);
      if last.Some? {
        BytesOfWord(network.addr + end);
        HoldsIsInterval(network, last.value);
      }
    }
  }

  /** What is stored for two addresses shows the same two addresses. */
  lemma StoredThenShown(network: Prefix, first: IPv4, last: IPv4)
    requires Network(network) && PoolOffsets(network, first, last).Ok?
    ensures var (start, count) := PoolOffsets(network, first, last).value;
      1 <= start < WORD && 1 <= count <= WORD && PoolIn(network, start, count) == Some((first, last))
  {
    hide Prefix.Size, Prefix.Contains, Prefix.Aligned, Holds, ToUint, FromUint, PoolIn;
    NetworkFits(network);
    HoldsIsInterval(network, first);
    HoldsIsInterval(network, last);
    var (start, count) := PoolOffsets(network, first, last).value;
    assert start == ToUint(first) - network.addr && count == ToUint(last) - ToUint(first) + 1;
    PoolIsExact(network, start, count);
    var shown := PoolIn(network, start, count).value;
    WordOfBytes(first);
    WordOfBytes(last);
    WordOfBytes(shown.0);
    WordOfBytes(shown.1);
  }

  /** So whatever pool is set for an interface is the one shown for it. */
  lemma SetThenShown(addresses: seq<Prefix>, first: IPv4, last: IPv4)
    requires (forall p :: p in addresses ==> p.Valid()) && LanNetwork(addresses).Some?
    requires PoolOffsets(LanNetwork(addresses).value, first, last).Ok?
    ensures var (start, count) := PoolOffsets(LanNetwork(addresses).value, first, last).value;
      PoolRange(addresses, start, count) == Some((first, last))
  {
    hide LanNetwork, PoolOffsets, PoolIn, Prefix.Size, Prefix.Aligned;
    StoredThenShown(LanNetwork(addresses).value, first, last);
  }

  /** What is shown is stored as the same numbers, exactly when the pool has an
      address and does not begin with the network's own. */
  lemma ShownThenStored(network: Prefix, start: int, limit: int)
    requires Network(network) && Int64(start) && Int64(limit) && PoolIn(network, start, limit).Some?
    ensures var (first, last) := PoolIn(network, start, limit).value;
      PoolOffsets(network, first, last)
      == if limit <= 0 then Err(Last) else if start == 0 then Err(First) else Ok((start, limit))
  {
    hide Prefix.Size, Prefix.Contains, Prefix.Aligned, Holds, ToUint, FromUint, PoolIn;
    NetworkFits(network);
    PoolIsExact(network, start, limit);
    var (first, last) := PoolIn(network, start, limit).value;
    HoldsIsInterval(network, first);
    HoldsIsInterval(network, last);
  }

  // ---- Lease times ----

  /** A signed decimal number of 64 bits. */
  function ParseInt(s: string): Option<int> {
    var signed := s != "" && (s[0] == '-' || s[0] == '+');
    var digits := if signed then s[1..] else s;
    if digits == "" || !AllDigits(digits) then None
    else
      var n: int := DecValue(digits);
      var v := if signed && s[0] == '-' then -n else n;
      if Int64(v) then Some(v) else None
  }

  function FormatInt(n: int): string { if n < 0 then "-" + Decimal(-n) else Decimal(n) }

  function Unit(c: char): nat {
    if c == 'w' then 7 * 86400 else if c == 'd' then 86400 else if c == 'h' then 3600 else if c == 'm' then 60 else 1
  }

  function ParseLeaseTime(s: string): int {
    var v := TrimSpace(s);
    if v == "" || v == "infinite" then 0
    else
      var c := v[|v| - 1];
      var number := if c in "wdhms" then v[..|v| - 1] else v;
      var n := ParseInt(TrimSpace(number));
      if n.None? || n.value < 0 then 0 else Wrap64(n.value * Unit(c))
  }

  /** Go's remainder is zero exactly when the number divides. */
  function FormatLeaseTime(seconds: int): string {
    if seconds % 3600 == 0 then FormatInt(seconds / 3600) + "h"
    else if seconds % 60 == 0 then FormatInt(seconds / 60) + "m"
    else FormatInt(seconds)
  }

  lemma ParseFormat(n: int)
    requires Int64(n)
    ensures ParseInt(FormatInt(n)) == Some(n)
    ensures FormatInt(n) != "" && IsDigit(FormatInt(n)[|FormatInt(n)| - 1]) && TrimSpace(FormatInt(n)) == FormatInt(n)
    ensures !IsSpace(FormatInt(n)[0])
  {
    var s := FormatInt(n);
    if n < 0 {
      assert s[1..] == Decimal(-n);
    }
    assert !IsSpace(s[0]) && !IsSpace(s[|s| - 1]);
    assert TrimLeft(s) == s;
  }

  lemma Ends(s: string, c: char)
    requires TrimSpace(s) == s && s != "" && !IsSpace(s[0]) && c in "wdhms"
    ensures TrimSpace(s + [c]) == s + [c] && (s + [c])[..|s|] == s
  {
    hide IsSpace;
    assert !IsSpace(c) by { NotSpaces(c); }
    assert TrimLeft(s + [c]) == s + [c];
  }

  lemma NotSpaces(c: char)
    requires c in "wdhms"
    ensures !IsSpace(c)
  {
  }

  lemma ReadWithUnit(n: int, c: char)
    requires Int64(n) && c in "wdhms"
    ensures ParseLeaseTime(FormatInt(n) + [c]) == if n < 0 then 0 else Wrap64(n * Unit(c))
  {
    hide ParseInt, FormatInt, TrimSpace, Wrap64, Int64;
    ParseFormat(n);
    var s := FormatInt(n);
    Ends(s, c);
    assert (s + [c])[|s|] == c && (s + [c])[|s|] != "infinite"[7];
  }

  lemma ReadBare(n: int)
    requires Int64(n)
    ensures ParseLeaseTime(FormatInt(n)) == if n < 0 then 0 else n
  {
    hide ParseInt, FormatInt, TrimSpace;
    ParseFormat(n);
    var s := FormatInt(n);
    assert s != "infinite" by { assert !IsDigit("infinite"[7]); }
  }

  /** What the letters behind a number stand for. */
  lemma UnitsMean(n: nat)
    requires n * 604800 < INT64
    ensures ParseLeaseTime(Decimal(n)) == n && ParseLeaseTime(Decimal(n) + "s") == n
    ensures ParseLeaseTime(Decimal(n) + "m") == n * 60 && ParseLeaseTime(Decimal(n) + "h") == n * 60 * 60
    ensures ParseLeaseTime(Decimal(n) + "d") == n * 24 * 60 * 60 && ParseLeaseTime(Decimal(n) + "w") == n * 7 * 24 * 60 * 60
  {
    hide ParseLeaseTime, Wrap64;
    assert FormatInt(n) == Decimal(n);
    ReadBare(n);
    ReadWithUnit(n, 's');
    ReadWithUnit(n, 'm');
    ReadWithUnit(n, 'h');
    ReadWithUnit(n, 'd');
    ReadWithUnit(n, 'w');
    WrapOnce(n * Unit('w'));
    WrapOnce(n * Unit('d'));
    WrapOnce(n * Unit('h'));
    WrapOnce(n * Unit('m'));
    WrapOnce(n * Unit('s'));
  }

  /** Every lease time is read back as it was written; one below zero as none. */
  lemma LeaseTimeRoundTrip(seconds: int)
    requires Int64(seconds)
    ensures ParseLeaseTime(FormatLeaseTime(seconds)) == if seconds >= 0 then seconds else 0
  {
    hide ParseLeaseTime, FormatInt;
    if seconds % 3600 == 0 {
      ReadWithUnit(seconds / 3600, 'h');
    } else if seconds % 60 == 0 {
      ReadWithUnit(seconds / 60, 'm');
    } else {
      ReadBare(seconds);
    }
  }
}
