/** What the words of a rule's `dest_ip` are read as: an IPv4 network with its
    length, as in section 3.1 of RFC 4632, or an IPv6 network of which the first
    group alone is written, as in section 2.3 of RFC 4291. */
module NetworkWords {
  import opened Outcomes
  import opened Text
  import opened Prefixes

  /** How many characters come before the first `c`. */
  function Upto(s: string, c: char): (n: nat)
    ensures n <= |s| && c !in s[..n]
  {
    if s == "" || s[0] == c then 0
    else
      var n := 1 + Upto(s[1..], c);
      assert s[..n] == [s[0]] + s[1..][..n - 1];
      n
  }

  /** A decimal number of at most three digits below a bound. */
  function Number(s: string, below: nat): (r: Option<nat>)
    ensures r.Some? ==> r.value < below
  {
    if 1 <= |s| <= 3 && AllDigits(s) && DecValue(s) < below then Some(DecValue(s)) else None
  }

  /** Bytes in decimal with a dot between each two: `more` and the first one. */
  function Dotted(s: string, more: nat): Option<nat> {
    var n := Upto(s, '.');
    var head := Number(s[..n], 256);
    if head.None? then None
    else if more == 0 then if n == |s| then head else None
    else if n == |s| then None
    else
      var rest := Dotted(s[n + 1..], more - 1);
      if rest.None? then None else Some(head.value * Pow2(8 * more) + rest.value)
  }

  predicate IsHex(c: char) { IsDigit(c) || 'a' <= c <= 'f' }

  function HexDigit(c: char): nat
    requires IsHex(c)
  {
    if IsDigit(c) then DigitValue(c) else 10 + (c - 'a') as nat
  }

  /** Four bits a digit, the first one first. */
  function Hex(s: string): nat
    requires forall c :: c in s ==> IsHex(c)
  {
    if s == "" then 0 else HexDigit(s[0]) * Pow2(4 * (|s| - 1)) + Hex(s[1..])
  }

  function ReadNetwork(w: string): (r: Option<Prefix>)
    ensures r.Some? ==> r.value.Valid()
  {
    var n := Upto(w, '/');
    if n == |w| then None
    else
      var bits, addr := Number(w[n + 1..], 129), w[..n];
      if bits.None? then None
      else if |addr| >= 2 && addr[|addr| - 2..] == "::" then FirstGroup(addr[..|addr| - 2], bits.value)
      else
        var four := Dotted(addr, 3);
        if four.None? then None else Within(Prefix(V4, four.value, bits.value))
  }

  function FirstGroup(group: string, bits: nat): (r: Option<Prefix>)
    ensures r.Some? ==> r.value.Valid()
  {
    if 1 <= |group| <= 4 && forall c :: c in group ==> IsHex(c)
    then Within(Prefix(V6, Hex(group) * Pow2(112), bits))
    else None
  }

  function Within(p: Prefix): (r: Option<Prefix>)
    ensures r.Some? ==> r == Some(p) && p.Valid()
  {
    if p.Valid() then Some(p) else None
  }

  /** The address is in the network the word stands for. */
  predicate WordHolds(w: string, f: Family, a: nat) {
    var n := ReadNetwork(w);
    n.Some? && n.value.family == f && n.value.Contains(a)
  }

  // ---- Reading a word ----

  lemma {:induction false} UptoFirst(a: string, c: char, rest: string)
    requires c !in a && (rest == "" || rest[0] == c)
    ensures Upto(a + rest, c) == |a|
  {
    if a == "" {
      assert a + rest == rest;
    } else {
      assert (a + rest)[1..] == a[1..] + rest;
      UptoFirst(a[1..], c, rest);
    }
  }

  /** A number and its digits. */
  predicate Spells(s: string, v: nat) { Number(s, 256) == Some(v) }

  lemma OneDigit(a: char)
    requires IsDigit(a)
    ensures Spells([a], DigitValue(a)) && DecValue([a]) == DigitValue(a)
  {
    assert [a][..0] == "" && [a][0] == a && DecValue("") == 0;
    assert DecValue([a]) == 10 * DecValue([a][..0]) + DigitValue([a][0]);
  }

  lemma TwoDigits(a: char, b: char)
    requires IsDigit(a) && IsDigit(b)
    ensures Spells([a, b], 10 * DigitValue(a) + DigitValue(b))
    ensures DecValue([a, b]) == 10 * DigitValue(a) + DigitValue(b)
  {
    OneDigit(a);
    assert [a, b][..1] == [a];
    assert DecValue([a, b]) == 10 * DecValue([a, b][..1]) + DigitValue([a, b][1]);
  }

  lemma ThreeDigits(a: char, b: char, c: char)
    requires IsDigit(a) && IsDigit(b) && IsDigit(c) && 100 * DigitValue(a) + 10 * DigitValue(b) + DigitValue(c) < 256
    ensures Spells([a, b, c], 100 * DigitValue(a) + 10 * DigitValue(b) + DigitValue(c))
  {
    TwoDigits(a, b);
    assert [a, b, c][..2] == [a, b];
    assert DecValue([a, b, c]) == 10 * DecValue([a, b, c][..2]) + DigitValue([a, b, c][2]);
  }

  lemma NoMark(s: string, v: nat, c: char)
    requires Spells(s, v) && !IsDigit(c)
    ensures c !in s && |s| >= 1
  {
  }

  lemma LastByte(s: string, v: nat)
    requires Spells(s, v)
    ensures Dotted(s, 0) == Some(v)
  {
    NoMark(s, v, '.');
    UptoFirst(s, '.', "");
    assert s + "" == s && s[..|s|] == s;
  }

  lemma NextByte(s: string, v: nat, rest: string, more: nat, r: nat)
    requires Spells(s, v) && Dotted(rest, more) == Some(r)
    ensures Dotted(s + ("." + rest), more + 1) == Some(v * Pow2(8 * (more + 1)) + r)
  {
    hide Number, Pow2;
    NoMark(s, v, '.');
    UptoFirst(s, '.', "." + rest);
    var all := s + ("." + rest);
    assert all[..|s|] == s && all[|s| + 1..] == rest;
  }

  /** `a.b.c.d`. */
  function Quad(a: string, b: string, c: string, d: string): string { a + ("." + (b + ("." + (c + ("." + d))))) }

  lemma ReadsQuad(a: string, b: string, c: string, d: string, va: nat, vb: nat, vc: nat, vd: nat)
    requires Spells(a, va) && Spells(b, vb) && Spells(c, vc) && Spells(d, vd)
    ensures Dotted(Quad(a, b, c, d), 3) == Some(va * 0x1000000 + vb * 0x10000 + vc * 0x100 + vd)
  {
    hide Spells, Dotted;
    Bytes();
    LastByte(d, vd);
    NextByte(c, vc, d, 0, vd);
    NextByte(b, vb, c + ("." + d), 1, vc * 0x100 + vd);
    NextByte(a, va, b + ("." + (c + ("." + d))), 2, vb * 0x10000 + (vc * 0x100 + vd));
  }

  lemma Bytes()
    ensures Pow2(8) == 0x100 && Pow2(16) == 0x10000 && Pow2(24) == 0x1000000 && Pow2(32) == 0x100000000
    ensures Pow2(20) == 0x100000 && Pow2(22) == 0x400000
  {
    assert Pow2(8) == 0x100;
    assert Pow2(4) == 16 && Pow2(6) == 64;
    Pow2Add(8, 8);
    Pow2Add(16, 4);
    Pow2Add(16, 6);
    Pow2Add(16, 8);
    Pow2Add(16, 16);
  }

  /** A word of an IPv4 network stands for its addresses. */
  lemma QuadHolds(a: string, b: string, c: string, d: string, va: nat, vb: nat, vc: nat, vd: nat, n: string, bits: nat, f: Family, x: nat)
    requires Spells(a, va) && Spells(b, vb) && Spells(c, vc) && Spells(d, vd) && Spells(n, bits) && bits <= 32
    requires va < 256 && vb < 256 && vc < 256 && vd < 256
    requires (va * 0x1000000 + vb * 0x10000 + vc * 0x100 + vd) % Pow2(32 - bits) == 0
    ensures var base := va * 0x1000000 + vb * 0x10000 + vc * 0x100 + vd;
      WordHolds(Quad(a, b, c, d) + ("/" + n), f, x) <==> f == V4 && base <= x < base + Pow2(32 - bits)
  {
    hide Dotted, Quad, Upto, ReadNetwork, Prefix.Contains, Pow2;
    var base := va * 0x1000000 + vb * 0x10000 + vc * 0x100 + vd;
    Bytes();
    QuadReads(a, b, c, d, va, vb, vc, vd, n, bits);
    AlignedInterval(Prefix(V4, base, bits), x);
  }

  lemma QuadReads(a: string, b: string, c: string, d: string, va: nat, vb: nat, vc: nat, vd: nat, n: string, bits: nat)
    requires Spells(a, va) && Spells(b, vb) && Spells(c, vc) && Spells(d, vd) && Spells(n, bits) && bits <= 32
    ensures ReadNetwork(Quad(a, b, c, d) + ("/" + n)) == Within(Prefix(V4, va * 0x1000000 + vb * 0x10000 + vc * 0x100 + vd, bits))
  {
    hide Dotted, Quad, Upto, Pow2, Number;
    var addr := Quad(a, b, c, d);
    var w := addr + ("/" + n);
    ReadsQuad(a, b, c, d, va, vb, vc, vd);
    QuadMarks(a, b, c, d, va, vb, vc, vd);
    UptoFirst(addr, '/', "/" + n);
    assert w[..|addr|] == addr && w[|addr| + 1..] == n;
    BitsOf(n, bits);
  }

  /** There is no slash in an address, nor two colons at its end. */
  lemma QuadMarks(a: string, b: string, c: string, d: string, va: nat, vb: nat, vc: nat, vd: nat)
    requires Spells(a, va) && Spells(b, vb) && Spells(c, vc) && Spells(d, vd)
    ensures var addr := Quad(a, b, c, d); |addr| >= 2 && '/' !in addr && addr[|addr| - 2..] != "::"
  {
    forall m | m in "/:" ensures m !in Quad(a, b, c, d) {
      NoMark(a, va, m);
      NoMark(b, vb, m);
      NoMark(c, vc, m);
      NoMark(d, vd, m);
    }
    var addr := Quad(a, b, c, d);
    assert '/' in "/:" && ':' in "/:";
    NoMark(d, vd, ':');
    assert addr[|addr| - 1] == d[|d| - 1] && d[|d| - 1] != ':';
    assert addr[|addr| - 2..][1] == addr[|addr| - 1];
  }

  /** A word of an IPv6 network of which one group of four digits is written. */
  lemma GroupHolds(group: string, n: string, bits: nat, f: Family, x: nat)
    requires |group| == 4 && (forall c :: c in group ==> IsHex(c)) && Spells(n, bits) && bits <= 16
    requires Hex(group) < 0x10000 && Hex(group) % Pow2(16 - bits) == 0
    ensures var unit := Pow2(112);
      WordHolds(group + "::" + ("/" + n), f, x) <==> f == V6 && Hex(group) * unit <= x < (Hex(group) + Pow2(16 - bits)) * unit
  {
    hide Pow2, Hex, Upto, IsHex, ReadNetwork, Prefix.Contains, Prefix.Valid, Prefix.Aligned, Prefix.Size, Number;
    GroupIsAligned(Hex(group), bits);
    GroupReads(group, n, bits);
    var p := Prefix(V6, Hex(group) * Pow2(112), bits);
    AlignedInterval(p, x);
  }

  lemma GroupReads(group: string, n: string, bits: nat)
    requires |group| == 4 && (forall c :: c in group ==> IsHex(c)) && Spells(n, bits) && bits < 129
    ensures ReadNetwork(group + "::" + ("/" + n)) == Within(Prefix(V6, Hex(group) * Pow2(112), bits))
  {
    var addr := group + "::";
    var w := addr + ("/" + n);
    assert '/' !in addr;
    UptoFirst(addr, '/', "/" + n);
    assert w[..|addr|] == addr && w[|addr| + 1..] == n;
    assert addr[|addr| - 2..] == "::" && addr[..|addr| - 2] == group;
    BitsOf(n, bits);
    hide Pow2, Hex, Upto, IsHex, Number;
  }

  /** A length is read as it is written. */
  lemma BitsOf(n: string, bits: nat)
    requires Spells(n, bits)
    ensures Number(n, 129) == if bits < 129 then Some(bits) else None
  {
  }

  lemma GroupIsAligned(g: nat, bits: nat)
    requires bits <= 16 && g < 0x10000 && g % Pow2(16 - bits) == 0
    ensures var p := Prefix(V6, g * Pow2(112), bits);
      p.Valid() && p.Aligned() && p.Size() == Pow2(16 - bits) * Pow2(112)
      && p.addr + p.Size() == (g + Pow2(16 - bits)) * Pow2(112)
  {
    hide Pow2;
    Bytes();
    Pow2Add(16, 112);
    Pow2Add(16 - bits, 112);
    assert 16 - bits + 112 == 128 - bits && 16 + 112 == 128;
    var step, unit := Pow2(16 - bits), Pow2(112);
    var q := g / step;
    assert g == q * step;
    assert g * unit == q * (step * unit) by {
      assert q * step * unit == q * (step * unit);
    }
    MulMod(q, step * unit);
    MulMono(g + 1, 0x10000, unit);
    assert (g + 1) * unit == g * unit + unit;
    assert (g + step) * unit == g * unit + step * unit;
  }
}
