/** What a guest finds on a guest network once it is made
    (internal/adapters/openwrt/wifi_guest.go): the access point that was asked
    for, and an address in the guests' own network. */
module GuestAccess {
  import opened Outcomes
  import opened Text
  import opened Prefixes
  import opened UciSections
  import opened GuestRecipe
  import opened GuestChecks
  import opened GuestSubnet
  import opened GuestWriter
  import opened NetworkWords
  import opened PrivateRanges
  import opened LanAddresses

  /** Options put into a section that has none, each once, are its options. */
  lemma {:induction false} WrittenIs(m: map<Key, string>, options: Options, k: nat)
    requires k < |options| && forall i, j :: 0 <= i < j < |options| ==> options[i].0 != options[j].0
    ensures options[k].0 in Written(m, options) && Written(m, options)[options[k].0] == options[k].1
    decreases |options|
  {
    var first, rest := options[0], options[1..];
    if k > 0 {
      assert forall i, j :: 0 <= i < j < |rest| ==> rest[i].0 != rest[j].0;
      WrittenIs(m[first.0 := first.1], rest, k - 1);
    } else {
      assert forall j :: 0 <= j < |rest| ==> rest[j].0 != first.0;
      WrittenKeeps(m[first.0 := first.1], rest, first.0);
    }
  }

  lemma {:induction false} WrittenKeeps(m: map<Key, string>, options: Options, key: Key)
    requires key in m && forall j :: 0 <= j < |options| ==> options[j].0 != key
    ensures key in Written(m, options) && Written(m, options)[key] == m[key]
    decreases |options|
  {
    if options != [] {
      assert forall j :: 0 <= j < |options[1..]| ==> options[1..][j] == options[j + 1];
      WrittenKeeps(m[options[0].0 := options[0].1], options[1..], key);
    }
  }

  /** On every radio there is one more access point, on the guests' network, with
      the name, the security and the password asked for. */
  lemma AccessPoints(c: Config, ip: string, wan: string, renumber: bool, q: Request, k: nat)
    requires k < |q.radios|
    ensures var w := WithGuests(c, ip, wan, renumber, q).wireless;
      |w| == |c.wireless| + |q.radios| && w[..|c.wireless|] == c.wireless
      && IsAccessPoint(w[|c.wireless| + k], q.radios[k], q)
  {
    hide Written, RadioOptions, RuleSections, RuleOrder, Renumbered;
    RadioIs(q.radios[k], q);
  }

  predicate IsAccessPoint(s: Section, radio: string, q: Request) {
    && s.kind.WifiIface? && s.id == Own(Radio(radio)) && Opt(s, DeviceKey) == radio && Opt(s, Mode) == "ap"
    && Opt(s, Network) == "guest" && Opt(s, Ssid) == q.ssid && Opt(s, Encryption) == q.encryption && Opt(s, Password) == q.password
  }

  lemma RadioIs(radio: string, q: Request)
    ensures IsAccessPoint(RadioSection(radio, q), radio, q)
  {
    hide Written, RadioOptions;
    RadioKeys(radio, q);
    EachIsWritten(RadioOptions(radio, q), 6);
  }

  lemma EachIsWritten(o: Options, n: nat)
    requires n <= |o| && forall i, j :: 0 <= i < j < |o| ==> o[i].0 != o[j].0
    ensures forall k :: 0 <= k < n ==> o[k].0 in Written(map[], o) && Written(map[], o)[o[k].0] == o[k].1
  {
    forall k | 0 <= k < n ensures o[k].0 in Written(map[], o) && Written(map[], o)[o[k].0] == o[k].1 {
      WrittenIs(map[], o, k);
    }
  }

  lemma RadioKeys(radio: string, q: Request)
    ensures var o := RadioOptions(radio, q);
      |o| >= 6 && o[0] == (DeviceKey, radio) && o[1] == (Mode, "ap") && o[2] == (Network, "guest")
      && o[3] == (Ssid, q.ssid) && o[4] == (Encryption, q.encryption) && o[5] == (Password, q.password)
      && forall i, j :: 0 <= i < j < |o| ==> o[i].0 != o[j].0
  {
  }

  /** A guest is given an address of the guests' network, the router's own and
      the network's last one apart, for two hours. */
  lemma GuestsGetAddresses(c: Prefix, a: nat)
    requires c.family == V4 && c.bits == 24 && c.Valid() && c.Aligned()
    ensures var s := DhcpSection(); var start, limit := ParseInt(Opt(s, OtherKey("start"))), ParseInt(Opt(s, OtherKey("limit")));
      s.kind.DhcpPool? && Opt(s, InterfaceKey) == "guest" && Opt(s, OtherKey("dhcpv4")) == "server"
      && ParseLeaseTime(Opt(s, OtherKey("leasetime"))) == 7200
      && start.Some? && limit.Some? && PoolIn(c, start.value, limit.value).Some?
      && (InPool(PoolIn(c, start.value, limit.value).value, a) ==> c.Contains(a) && a != c.addr && a != c.addr + 1 && a != c.addr + 255)
      && InPool(PoolIn(c, start.value, limit.value).value, c.addr + 100)
  {
    hide Written, ParseInt, ParseLeaseTime, PoolIn, Prefix.Contains, Prefix.Aligned, Pow2, ToUint;
    PoolOptions();
    PoolNumbers();
    SizeIs256(c);
    PoolIsExact(c, 100, 150);
    AlignedInterval(c, a);
  }

  predicate InPool(pool: (IPv4, IPv4), a: nat) { ToUint(pool.0) <= a <= ToUint(pool.1) }

  lemma SizeIs256(c: Prefix)
    requires c.family == V4 && c.bits == 24 && c.Valid()
    ensures c.Size() == 256
  {
    SizeOf24();
  }

  lemma PoolOptions()
    ensures var s := DhcpSection();
      s.kind.DhcpPool? && Opt(s, InterfaceKey) == "guest" && Opt(s, OtherKey("start")) == "100" && Opt(s, OtherKey("limit")) == "150"
      && Opt(s, OtherKey("leasetime")) == "2h" && Opt(s, OtherKey("dhcpv4")) == "server"
      && Opt(s, OtherKey("dhcpv6")) == "server" && Opt(s, OtherKey("ra")) == "server" && Opt(s, OtherKey("ra_slaac")) == "1"
  {
    hide Written, DhcpOptions;
    KeysDiffer();
    EachIsWritten(DhcpOptions(), 8);
  }

  lemma KeysDiffer()
    ensures var o := DhcpOptions();
      |o| == 8 && o[0] == (InterfaceKey, "guest") && o[1] == (OtherKey("start"), "100") && o[2] == (OtherKey("limit"), "150")
      && o[3] == (OtherKey("leasetime"), "2h") && o[4] == (OtherKey("dhcpv4"), "server")
      && o[5] == (OtherKey("dhcpv6"), "server") && o[6] == (OtherKey("ra"), "server") && o[7] == (OtherKey("ra_slaac"), "1")
      && forall i, j :: 0 <= i < j < |o| ==> o[i].0 != o[j].0
  {
    WordsDiffer();
    KeysOfWords("start", "limit", "leasetime", "dhcpv4", "dhcpv6", "ra", "ra_slaac", "100", "150", "2h", "server", "1");
  }

  lemma WordsDiffer()
    ensures AllDiffer("start", "limit", "leasetime", "dhcpv4", "dhcpv6", "ra", "ra_slaac")
  {
    assert "start"[0] != "limit"[0] && "dhcpv4"[5] != "dhcpv6"[5];
  }

  predicate AllDiffer(a: string, b: string, c: string, d: string, e: string, f: string, g: string) {
    && a !in [b, c, d, e, f, g] && b !in [c, d, e, f, g] && c !in [d, e, f, g] && d !in [e, f, g] && e !in [f, g] && f != g
  }

  lemma KeysOfWords(a: string, b: string, c: string, d: string, e: string, f: string, g: string,
                    start: string, limit: string, lease: string, server: string, one: string)
    requires AllDiffer(a, b, c, d, e, f, g)
    ensures var o := [(InterfaceKey, GUEST), (OtherKey(a), start), (OtherKey(b), limit), (OtherKey(c), lease),
                      (OtherKey(d), server), (OtherKey(e), server), (OtherKey(f), server), (OtherKey(g), one)];
      forall i, j :: 0 <= i < j < |o| ==> o[i].0 != o[j].0
  {
  }

  lemma PoolNumbers()
    ensures ParseInt("100") == Some(100) && ParseInt("150") == Some(150) && ParseLeaseTime("2h") == 7200
  {
    hide ParseLeaseTime, DecValue, Wrap64;
    ThreeDigits('1', '0', '0');
    ThreeDigits('1', '5', '0');
    UnitsMean(2);
    assert Decimal(2) + "h" == "2h";
  }

  /** The address the router takes for itself is the first of the network, and
      private, as are all the guests'. */
  lemma GuestsArePrivate(k: nat, a: nat)
    requires k < 504 && Candidate(k).Contains(a)
    ensures IsPrivate4(a) && IsPrivate4(Candidate(k).addr + 1) && Candidate(k).Contains(Candidate(k).addr + 1)
  {
    hide Pow2, Prefix.Contains, Prefix.Aligned;
    var c := Candidate(k);
    SizeIs256(c);
    AlignedInterval(c, a);
    AlignedInterval(c, c.addr + 1);
    if k < 252 {
      Tried(k + 3);
    } else {
      Tried(k - 249);
    }
  }
}
