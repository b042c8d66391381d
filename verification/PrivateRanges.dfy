/** The destinations guests are refused beyond the uplink: that what the recipe
    lists word by word (internal/adapters/openwrt/wifi_guest.go) is the private
    addresses, no more and no fewer. */
module PrivateRanges {
  import opened Text
  import opened Prefixes
  import opened GuestRecipe
  import opened NetworkWords
  import opened LanAddresses

  /** 10/8, 172.16/12, 192.168/16 (section 3 of RFC 1918), 100.64/10 (section 7
      of RFC 6598), 169.254/16 (section 2.1 of RFC 3927). */
  predicate IsPrivate4(a: nat) {
    || ToUint(IPv4(10, 0, 0, 0)) <= a < ToUint(IPv4(11, 0, 0, 0))
    || ToUint(IPv4(172, 16, 0, 0)) <= a < ToUint(IPv4(172, 32, 0, 0))
    || ToUint(IPv4(192, 168, 0, 0)) <= a < ToUint(IPv4(192, 169, 0, 0))
    || ToUint(IPv4(100, 64, 0, 0)) <= a < ToUint(IPv4(100, 128, 0, 0))
    || ToUint(IPv4(169, 254, 0, 0)) <= a < ToUint(IPv4(169, 255, 0, 0))
  }

  /** fc00::/7 (section 3.1 of RFC 4193). */
  predicate IsPrivate6(a: nat) { a / Pow2(121) == 126 }

  /** Some word of the value stands for a network the address is in. */
  predicate ListHolds(v: string, f: Family, a: nat) {
    exists w :: w in Fields(v) && WordHolds(w, f, a)
  }

  lemma JoinedHolds(words: seq<string>, f: Family, a: nat)
    requires forall w :: w in words ==> IsWord(w)
    ensures ListHolds(Join(words), f, a) <==> exists w :: w in words && WordHolds(w, f, a)
  {
    FieldsOfJoin(words);
    hide WordHolds, Join, Fields;
  }

  lemma Ten(f: Family, x: nat)
    ensures WordHolds("10.0.0.0/8", f, x) <==> f == V4 && ToUint(IPv4(10, 0, 0, 0)) <= x < ToUint(IPv4(11, 0, 0, 0))
  {
    hide WordHolds, Pow2, Spells;
    OneDigit('0');
    TwoDigits('1', '0');
    OneDigit('8');
    Bytes();
    assert Quad("10", "0", "0", "0") + ("/" + "8") == "10.0.0.0/8";
    QuadHolds("10", "0", "0", "0", 10, 0, 0, 0, "8", 8, f, x);
  }

  lemma Twelve(f: Family, x: nat)
    ensures WordHolds("172.16.0.0/12", f, x) <==> f == V4 && ToUint(IPv4(172, 16, 0, 0)) <= x < ToUint(IPv4(172, 32, 0, 0))
  {
    hide WordHolds, Pow2, Spells;
    OneDigit('0');
    ThreeDigits('1', '7', '2');
    TwoDigits('1', '6');
    TwoDigits('1', '2');
    Bytes();
    assert Quad("172", "16", "0", "0") + ("/" + "12") == "172.16.0.0/12";
    QuadHolds("172", "16", "0", "0", 172, 16, 0, 0, "12", 12, f, x);
  }

  lemma Sixteen(f: Family, x: nat)
    ensures WordHolds("192.168.0.0/16", f, x) <==> f == V4 && ToUint(IPv4(192, 168, 0, 0)) <= x < ToUint(IPv4(192, 169, 0, 0))
  {
    hide WordHolds, Pow2, Spells;
    OneDigit('0');
    ThreeDigits('1', '9', '2');
    ThreeDigits('1', '6', '8');
    TwoDigits('1', '6');
    Bytes();
    assert Quad("192", "168", "0", "0") + ("/" + "16") == "192.168.0.0/16";
    QuadHolds("192", "168", "0", "0", 192, 168, 0, 0, "16", 16, f, x);
  }

  lemma CarrierGrade(f: Family, x: nat)
    ensures WordHolds("100.64.0.0/10", f, x) <==> f == V4 && ToUint(IPv4(100, 64, 0, 0)) <= x < ToUint(IPv4(100, 128, 0, 0))
  {
    hide WordHolds, Pow2, Spells;
    OneDigit('0');
    ThreeDigits('1', '0', '0');
    TwoDigits('6', '4');
    TwoDigits('1', '0');
    Bytes();
    assert Quad("100", "64", "0", "0") + ("/" + "10") == "100.64.0.0/10";
    QuadHolds("100", "64", "0", "0", 100, 64, 0, 0, "10", 10, f, x);
  }

  lemma LinkLocal(f: Family, x: nat)
    ensures WordHolds("169.254.0.0/16", f, x) <==> f == V4 && ToUint(IPv4(169, 254, 0, 0)) <= x < ToUint(IPv4(169, 255, 0, 0))
  {
    hide WordHolds, Pow2, Spells;
    OneDigit('0');
    ThreeDigits('1', '6', '9');
    ThreeDigits('2', '5', '4');
    TwoDigits('1', '6');
    Bytes();
    assert Quad("169", "254", "0", "0") + ("/" + "16") == "169.254.0.0/16";
    QuadHolds("169", "254", "0", "0", 169, 254, 0, 0, "16", 16, f, x);
  }

  lemma Unique6(f: Family, x: nat)
    ensures WordHolds("fc00::/7", f, x) <==> f == V6 && IsPrivate6(x)
  {
    hide WordHolds, Pow2, Spells, Hex;
    OneDigit('7');
    assert "fc00" + "::" + ("/" + "7") == "fc00::/7";
    HexOfFc00();
    assert Pow2(9) == 512 by { NineBits(); }
    GroupHolds("fc00", "7", 7, f, x);
    Pow2Add(9, 112);
    var unit, size := Pow2(112), Pow2(121);
    assert size == 512 * unit && 64512 * unit == 126 * size && (64512 + 512) * unit == 127 * size;
    Quotient(x, size, 126);
  }

  lemma NineBits()
    ensures Pow2(9) == 512
  {
  }

  lemma Quotient(x: nat, size: nat, q: nat)
    requires size >= 1
    ensures x / size == q <==> q * size <= x < (q + 1) * size
  {
    var d, r := x / size, x % size;
    assert x == d * size + r;
    assert (q + 1) * size == q * size + size && (d + 1) * size == d * size + size;
    if d < q {
      MulMono(d + 1, q, size);
    } else if d > q {
      MulMono(q + 1, d, size);
    }
  }

  lemma HexOfFc00()
    ensures (forall c :: c in "fc00" ==> IsHex(c)) && Hex("fc00") == 64512
  {
    Bytes();
    assert Pow2(4) == 16 && Pow2(12) == 4096 by { FourBits(); }
    var s := "fc00";
    hide Pow2;
    assert s[1..] == "c00" && s[1..][1..] == "00" && s[1..][1..][1..] == "0" && s[1..][1..][1..][1..] == "";
    assert Hex(s[1..][1..][1..]) == 0;
    assert Hex(s[1..][1..]) == 0;
    assert Hex(s[1..]) == 12 * Pow2(8);
    assert Hex(s) == 15 * Pow2(12) + 12 * Pow2(8);
  }

  lemma FourBits()
    ensures Pow2(4) == 16 && Pow2(12) == 4096
  {
    assert Pow2(8) == 256;
    Pow2Add(4, 8);
  }

  /** No blank is in a word of these characters. */
  lemma IsPlain(w: string)
    requires w != "" && forall k :: 0 <= k < |w| ==> w[k] > ' '
    ensures IsWord(w)
  {
  }

  lemma PlainNetworks()
    ensures forall w :: w in PRIVATE4_WORDS ==> IsWord(w)
  {
    hide IsWord;
    IsPlain("10.0.0.0/8");
    IsPlain("172.16.0.0/12");
    IsPlain("192.168.0.0/16");
    IsPlain("100.64.0.0/10");
    IsPlain("169.254.0.0/16");
  }

  lemma PlainMessages()
    ensures forall w :: w in ICMP_WORDS ==> IsWord(w)
  {
    hide IsWord;
    IsPlain("router-solicitation");
    IsPlain("neighbour-solicitation");
    IsPlain("neighbour-advertisement");
  }

  /** The IPv4 networks of the recipe hold exactly the private addresses. */
  lemma ListedIsPrivate4(f: Family, x: nat)
    ensures ListHolds(Private4(), f, x) <==> f == V4 && IsPrivate4(x)
  {
    hide WordHolds, ListHolds, ToUint, IsWord;
    PlainNetworks();
    JoinedHolds(PRIVATE4_WORDS, f, x);
    Ten(f, x);
    Twelve(f, x);
    Sixteen(f, x);
    CarrierGrade(f, x);
    LinkLocal(f, x);
    assert PRIVATE4_WORDS[0] == "10.0.0.0/8" && PRIVATE4_WORDS[1] == "172.16.0.0/12" && PRIVATE4_WORDS[2] == "192.168.0.0/16";
    assert PRIVATE4_WORDS[3] == "100.64.0.0/10" && PRIVATE4_WORDS[4] == "169.254.0.0/16";
  }

  /** So does its IPv6 network. */
  lemma ListedIsPrivate6(f: Family, x: nat)
    ensures ListHolds(Private6(), f, x) <==> f == V6 && IsPrivate6(x)
  {
    IsPlain("fc00::/7");
    JoinedHolds(PRIVATE6_WORDS, f, x);
    hide WordHolds, ListHolds, IsPrivate6;
    Unique6(f, x);
    assert PRIVATE6_WORDS[0] == "fc00::/7";
  }

  /** The messages of neighbour discovery a guest may send the router. */
  lemma ListedMessages(message: string)
    ensures message in Fields(IcmpTypes()) <==>
      message == "router-solicitation" || message == "neighbour-solicitation" || message == "neighbour-advertisement"
  {
    hide Fields, Join, IsWord;
    PlainMessages();
    FieldsOfJoin(ICMP_WORDS);
    assert ICMP_WORDS[0] == "router-solicitation" && ICMP_WORDS[1] == "neighbour-solicitation" && ICMP_WORDS[2] == "neighbour-advertisement";
  }
}
