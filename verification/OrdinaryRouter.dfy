/** A router on which a guest network can be made, and two more on which the
    checks find nothing against a guest network that is not kept
    (internal/adapters/openwrt/wifi_guest.go). */
module OrdinaryRouter {
  import opened Outcomes
  import opened Text
  import opened Prefixes
  import opened UciSections
  import opened GuestRecipe
  import opened GuestChecks
  import opened GuestWriter
  import opened GuestFirewall
  import opened GuestAgreement
  import opened PrivateRanges
  import GuestSubnet
  import LanAddresses

  function ZoneOf(name: OtherWord, opts: map<Key, string>): Section { Section(OtherId(name), Zone, opts) }

  /** A home network and an uplink, each in its zone, and perhaps more zones. */
  function Ordinary(lib: Library, more: seq<Section>): State {
    State([Section(Lan, Interface, map[DeviceKey := "br-lan"])],
          assert "out"[0] != "lan"[0];
          [ZoneOf("home", map[Name := "lan", Network := "lan"]), ZoneOf("out", map[Name := "wan", Network := "wan", Masq := "1"])] + more,
          [], [], [Live("wan", true, false, [], [], [])], lib)
  }

  /** A further zone in which the checks find nothing. */
  predicate Passes(s: Section, lib: Library) {
    && s.kind.Zone? && Src !in s.opts && s.id.OtherId? && s.id.word != "home" && s.id.word != "out"
    && Opt(s, Name) != "wan" && Opt(s, Name) != GUEST && !TakesGuests(s) && !HasHazard(lib, s)
  }

  predicate Unremarked(more: seq<Section>, lib: Library) {
    Unique(more) && forall s :: s in more ==> Passes(s, lib)
  }

  lemma ZoneWords(s: Section, name: string)
    requires IsWord(name) && Opt(s, Network) == name && DeviceKey !in s.opts && Subnet !in s.opts
    ensures Words(s, Network) == [name] && Words(s, DeviceKey) == [] && Words(s, Subnet) == []
  {
    OneField(name);
  }

  lemma SecondZone(home: Section, out: Section, more: seq<Section>, net: string)
    requires home.kind.Zone? && net !in Words(home, Network) && out.kind.Zone? && net in Words(out, Network)
    ensures ZoneWith([home, out] + more, net) == Some(out)
  {
    hide Words;
    var all := [home, out] + more;
    assert all[1..][0] == out;
  }

  lemma UplinkIsWan(live: Live)
    requires live == Live("wan", true, false, [], [], [])
    ensures PickUplink([live]) == "wan"
  {
    assert "wan"[0] != "loopback"[0] && |"wan"| != |"lo"|;
    assert [live][1..] == [];
    assert Candidates([live]) == ["wan"];
  }

  lemma OrdinaryZones(st: State, more: seq<Section>)
    requires st == Ordinary(st.lib, more)
    ensures UplinkSection(st.firewall, st.ifaces) == Some(st.firewall[1]) && UplinkZone(st) == "wan"
    ensures Words(st.firewall[0], Network) == ["lan"] && Words(st.firewall[1], Network) == ["wan"]
    ensures forall s :: s in st.firewall[..2] ==> Words(s, DeviceKey) == [] && Words(s, Subnet) == []
  {
    var home, out := st.firewall[0], st.firewall[1];
    ZoneWords(home, "lan");
    ZoneWords(out, "wan");
    assert "lan"[0] != "wan"[0];
    UplinkIsWan(st.ifaces[0]);
    hide Words, PickUplink, ZoneWith;
    SecondZone(home, out, more, "wan");
    assert forall s :: s in st.firewall[..2] ==> s == home || s == out;
  }

  /** A zone of one network, called by its name. */
  lemma OneNetworkZone(s: Section, name: string, st: State)
    requires s.kind.Zone? && Src !in s.opts && Opt(s, Name) == name && s.id.OtherId?
    requires Words(s, Network) == [name] && Words(s, DeviceKey) == [] && Words(s, Subnet) == []
    requires name != GUEST && !HasPrefix(name, "!") && (name == "wan" ==> Opt(s, Masq) == "1" && MasqSrc !in s.opts && MasqDest !in s.opts)
    ensures !OpenToAll(s) && !TakesGuests(s) && !HasHazard(st.lib, s) && !NoNat(s, "wan") && !OpensFromGuests(s, "wan") && !Reflects(s)
    ensures name != LAN ==> !HoldsHome(s, st.network)
    ensures !HeldByNegation(s)
  {
    hide Words, Accepting, Names, Hazard, LanDevice;
    NoOpening(s);
  }

  lemma OrdinaryZone(st: State, more: seq<Section>, s: Section)
    requires st == Ordinary(st.lib, more) && s in st.firewall[..2]
    ensures !OpenToAll(s) && !TakesGuests(s) && !HasHazard(st.lib, s) && !NoNat(s, "wan") && !OpensFromGuests(s, "wan") && !Reflects(s)
    ensures Opt(s, Name) == "wan" ==> !HoldsHome(s, st.network)
    ensures s.id != Guest && !s.id.Own? && Opt(s, Name) != GUEST
    ensures !HeldByNegation(s)
  {
    OrdinaryZones(st, more);
    assert s == st.firewall[0] || s == st.firewall[1];
    hide Words, OpenToAll, TakesGuests, HasHazard, NoNat, OpensFromGuests, Reflects, HoldsHome, HeldByNegation, UplinkZone, UplinkSection;
    assert GUEST[0] != "lan"[0] && GUEST[0] != "wan"[0] && LAN[0] != "wan"[0];
    assert "lan"[..1][0] != "!"[0] && "wan"[..1][0] != "!"[0];
    OneNetworkZone(s, if s == st.firewall[0] then "lan" else "wan", st);
  }

  lemma NoOpening(s: Section)
    requires s.kind.Zone? && Src !in s.opts
    ensures !OpenToAll(s) && !OpensFromGuests(s, "wan") && !Reflects(s)
  {
  }

  lemma FurtherZone(s: Section, lib: Library)
    requires Passes(s, lib)
    ensures !OpenToAll(s) && !TakesGuests(s) && !HasHazard(lib, s) && !NoNat(s, "wan") && !OpensFromGuests(s, "wan") && !Reflects(s)
    ensures Opt(s, Name) != "wan" && s.id != Guest && !s.id.Own? && Opt(s, Name) != GUEST
  {
    hide TakesGuests, HasHazard;
    NoOpening(s);
  }

  /** Every section of the firewall file is one the checks find nothing in. */
  lemma EveryZone(st: State, more: seq<Section>, s: Section)
    requires st == Ordinary(st.lib, more) && Unremarked(more, st.lib) && s in st.firewall
    ensures !OpenToAll(s) && !TakesGuests(s) && !HasHazard(st.lib, s) && !NoNat(s, "wan") && !OpensFromGuests(s, "wan") && !Reflects(s)
    ensures Opt(s, Name) == "wan" ==> !HoldsHome(s, st.network)
    ensures s.id != Guest && !s.id.Own? && Opt(s, Name) != GUEST
    ensures s !in more ==> !HeldByNegation(s)
  {
    hide OpenToAll, TakesGuests, HasHazard, NoNat, OpensFromGuests, Reflects, HoldsHome, Opt, HeldByNegation, Passes;
    if s in more {
      FurtherZone(s, st.lib);
    } else {
      assert st.firewall == st.firewall[..2] + more;
      OrdinaryZone(st, more, s);
    }
  }

  lemma OrdinaryShape(st: State, more: seq<Section>)
    requires st == Ordinary(st.lib, more) && Unremarked(more, st.lib)
    ensures !st.Shape().ours && !st.Shape().foreign && Uplink6(st) == ""
  {
    hide Unremarked;
    forall s | s in st.firewall ensures s.id != Guest && !s.id.Own? && Opt(s, Name) != GUEST {
      EveryZone(st, more, s);
    }
    var lan := st.network[0];
    assert Find(st.network, Guest).None? && Find(st.network, Own(Dev)).None?;
    hide Fields;
    assert Words(lan, Ifname) == [] by { NoWords(lan, Ifname); }
    assert BRIDGE[3] != "br-lan"[3];
  }

  lemma NoWords(s: Section, k: Key)
    requires k !in s.opts
    ensures Words(s, k) == []
  {
  }

  lemma NothingBlocks(st: State)
    requires !st.Shape().ours && !st.Shape().foreign && st.dhcp == [] && Uplink6Zone(st) == ""
    requires UplinkZone(st) != "" && UplinkSection(st.firewall, st.ifaces).Some?
    requires LAN !in Words(UplinkSection(st.firewall, st.ifaces).value, Network)
    requires forall s :: s in st.firewall ==>
      !OpenToAll(s) && !TakesGuests(s) && !HasHazard(st.lib, s) && !NoNat(s, UplinkZone(st)) && !OpensFromGuests(s, UplinkZone(st)) && !Reflects(s)
    requires forall s :: s in st.firewall && Opt(s, Name) == UplinkZone(st) ==> !HoldsHome(s, st.network)
    ensures Ready(st)
  {
    hide Words, OpenToAll, TakesGuests, HasHazard, NoNat, OpensFromGuests, Reflects, HoldsHome, UplinkSection, State.Shape, Opt, Uplink6Zone;
  }

  /** On it a guest network can be made, with all that the theorems ask for but
      for what the further zones hold by a negation. */
  lemma IsReady(st: State, more: seq<Section>)
    requires st == Ordinary(st.lib, more) && Unremarked(more, st.lib)
    ensures Ready(st) && UplinkZone(st) == "wan" && Uplink6(st) != GUEST && Unique(st.firewall)
    ensures NoneByNegation(st.firewall) <==> NoneByNegation(more)
  {
    OrdinaryZones(st, more);
    OrdinaryShape(st, more);
    OrdinaryNames(st, more);
    assert st.firewall == st.firewall[..2] + more;
    hide Ready, Ordinary, Words, OpenToAll, TakesGuests, HasHazard, NoNat, OpensFromGuests, Reflects, HoldsHome, UplinkSection, UplinkZone, State.Shape, Opt, Uplink6, HeldByNegation, Unique, Unremarked;
    forall s | s in st.firewall
      ensures !OpenToAll(s) && !TakesGuests(s) && !HasHazard(st.lib, s) && !NoNat(s, "wan") && !OpensFromGuests(s, "wan") && !Reflects(s)
      ensures Opt(s, Name) == "wan" ==> !HoldsHome(s, st.network)
      ensures s !in more ==> !HeldByNegation(s)
    {
      EveryZone(st, more, s);
    }
    NothingBlocks(st);
  }

  lemma OrdinaryNames(st: State, more: seq<Section>)
    requires st == Ordinary(st.lib, more) && Unremarked(more, st.lib)
    ensures Unique(st.firewall) && st.dhcp == [] && LAN !in ["wan"]
  {
    hide TakesGuests, HasHazard;
    assert "home"[0] != "out"[0] && LAN[0] != "wan"[0];
    var all := st.firewall;
    forall i, j | 0 <= i < j < |all| ensures all[i].id != all[j].id {
      assert i >= 2 ==> all[i] == more[i - 2];
      assert j >= 2 ==> all[j] == more[j - 2] && all[j] in more;
    }
  }

  // ---- A guest network the checks pass and the firewall does not keep ----

  /** A guest asks the router for a shell. */
  function Ssh(v6: bool, source: nat): Packet {
    Packet(v6, source, "", 0, Tcp(22), {(Family, if v6 then "ipv6" else "ipv4"), (Proto, "all"), (Proto, "tcp udp")}, {})
  }

  lemma SshIsSensible(v6: bool, source: nat)
    ensures Sensible(Ssh(v6, source)) && !Service(Ssh(v6, source)) && Ssh(v6, source).to == ""
  {
    hide Private4, Private6, IcmpTypes, ListHolds, Fields, Sensible;
    DistinctWords();
    assert "udp" != "tcp udp" && "icmp"[0] != "tcp udp"[0];
    SshIf(Ssh(v6, source), if v6 then "ipv6" else "ipv4", "ipv4", "ipv6", "all", "udp", "tcp udp", "icmp");
  }

  lemma SshIf(p: Packet, word: string, four: string, six: string, every: string, udp: string, both: string, icmp: string)
    requires p.holds == {(Family, word), (Proto, every), (Proto, both)} && p.transport == Tcp(22) && p.dest == 0
    requires word == (if p.v6 then six else four) && four != six
    requires every != udp && every != icmp && both != udp && both != icmp
    requires four == "ipv4" && six == "ipv6" && every == "all" && udp == "udp" && both == "tcp udp" && icmp == "icmp"
    ensures Sensible(p) && !Service(p)
  {
    hide Private4, Private6, IcmpTypes, ListHolds, Fields;
    forall k, w ensures (k, w) in p.holds <==> (k == Family && w == word) || (k == Proto && (w == every || w == both)) {
    }
    ZeroIsUnlisted(Of(p));
  }

  lemma ThirdHolds(firewall: seq<Section>, st: State, p: Packet)
    requires |firewall| > 2 && !InZone(firewall[0], st, p) && !InZone(firewall[1], st, p) && InZone(firewall[2], st, p)
    ensures SourceZone(firewall, st, p) == Some(firewall[2])
  {
    hide InZone;
    var two := firewall[1..];
    assert two[0] == firewall[1] && two[1..][0] == firewall[2];
    assert SourceZone(two[1..], st, p) == Some(firewall[2]);
    assert SourceZone(two, st, p) == Some(firewall[2]);
  }

  /** A packet to the router which no rule and no port forward speaks of is
      decided by the zone's policy. */
  lemma OnlyPolicy(st: State, p: Packet, z: Section)
    requires SourceZone(st.firewall, st, p) == Some(z) && p.to == ""
    requires Opt(z, Name) != GUEST && Opt(z, Input) == "ACCEPT"
    requires forall s :: s in st.firewall ==> !s.kind.Redirect? && (s.kind.Rule? ==> Opt(s, Src) == GUEST)
    ensures Accepted(st, p)
  {
    hide SourceZone, FirstRule, Opt;
    assert GUEST != "*" && "ACCEPT"[0] != "REJECT"[0] && "ACCEPT"[0] != "DROP"[0];
    FoldWord("ACCEPT", "REJECT");
    FoldWord("ACCEPT", "DROP");
  }

  lemma NewPlaces(wan: string, s: Section)
    requires NewInFirewall(s, wan)
    ensures !s.kind.Redirect? && (s.kind.Rule? ==> Opt(s, Src) == GUEST)
  {
    hide Written, ZoneSection, WanSection, RuleDone;
    if s == ZoneSection() {
      ZoneFacts(s);
    } else if s == WanSection(wan) {
      WanFacts(s, wan);
    } else {
      RuleReads(s.id.role, wan);
      RuleNames(s.id.role, wan);
    }
  }

  lemma NoRange(lib: Library, z: Section, p: Packet)
    requires Words(z, Subnet) == []
    ensures !TakesAddress(lib, z, p)
  {
  }

  /** What is made on an ordinary router with one more zone passes the checks. */
  lemma FurtherZoneChecks(st: State, z: Section, ip: string, q: Request)
    requires st == Ordinary(st.lib, [z]) && Passes(z, st.lib) && !Covered(After(st, ip, false, q))
    ensures var a := After(st, ip, false, q);
      GuestBlocker(a).None? && a.Shape().ours && Unique(a.firewall) && UplinkZone(a) == "wan"
      && Kept(a) && a.firewall == st.firewall + NewFirewall("wan") && Ahead(a.firewall) == st.firewall
  {
    var a := After(st, ip, false, q);
    OnlyOne(z, st.lib);
    IsReady(st, [z]);
    hide Ready, Ordinary, Covered, UplinkZone, UplinkSection, State.Shape, GuestBlocker, GuestWeakened, Uplink6, Unique, Passes, After, NewFirewall, Clean, Kept, Ahead;
    UncoveredAgrees(st, ip, false, q);
    ReadyIsClean(st);
    FirewallIs(st, ip, false, q);
    NetworkIs(st, ip, false, q);
    UplinkStays(st, NewFirewall(UplinkZone(st)));
    SameUplink(a, st);
    UniqueAfter(st);
    AheadAfter(st);
    ChecksKeep(a);
  }

  lemma HomeAndOut(st: State, z: Section)
    requires st == Ordinary(st.lib, [z])
    ensures |st.firewall| == 3 && st.firewall[2] == z
    ensures forall k :: 0 <= k < 2 ==>
      st.firewall[k].id != Guest && !HeldByNegation(st.firewall[k]) && Words(st.firewall[k], Subnet) == []
  {
    OrdinaryZones(st, [z]);
    OrdinaryZone(st, [z], st.firewall[0]);
    OrdinaryZone(st, [z], st.firewall[1]);
    assert st.firewall[..2][0] == st.firewall[0] && st.firewall[..2][1] == st.firewall[1];
    hide Words, HeldByNegation, UplinkZone, UplinkSection;
  }

  /** The further zone is the first to hold what it holds. */
  lemma FurtherZoneIsFirst(st: State, z: Section, a: State, p: Packet)
    requires st == Ordinary(st.lib, [z]) && Kept(a) && a.firewall == st.firewall + NewFirewall("wan") && InZone(z, a, p)
    ensures SourceZone(a.firewall, a, p) == Some(z)
  {
    hide Ordinary, Kept, NewFirewall, InZone, Words, HeldByNegation, SourceZone;
    HomeAndOut(st, z);
    NotElsewhere(a, p, st.firewall[0]);
    NotElsewhere(a, p, st.firewall[1]);
    ThirdHolds(a.firewall, a, p);
  }

  /** What is made there: the further zone takes the guests' packets it holds,
      and lets them to the router. */
  lemma FurtherZoneTakes(st: State, z: Section, ip: string, q: Request, p: Packet)
    requires st == Ordinary(st.lib, [z]) && Passes(z, st.lib) && Opt(z, Input) == "ACCEPT"
    requires var a := After(st, ip, false, q); !Covered(a) && p.to == "" && InZone(z, a, p)
    ensures var a := After(st, ip, false, q);
      GuestBlocker(a).None? && a.Shape().ours && Unique(a.firewall) && UplinkZone(a) == "wan" && Accepted(a, p)
  {
    hide Ordinary, Covered, InZone, UplinkZone, UplinkSection, State.Shape, GuestBlocker, Unique, Passes, After, NewFirewall, Opt, Accepted, Kept, NewInFirewall, SourceZone, Ahead;
    var a := After(st, ip, false, q);
    FurtherZoneChecks(st, z, ip, q);
    FurtherZoneIsFirst(st, z, a, p);
    NewMembers("wan");
    PassesName(z, st.lib);
    forall s | s in a.firewall ensures !s.kind.Redirect? && (s.kind.Rule? ==> Opt(s, Src) == GUEST) {
      if s in st.firewall {
        AllZones(st, z, s);
      } else {
        NewPlaces("wan", s);
      }
    }
    OnlyPolicy(a, p, z);
  }

  lemma OnlyOne(z: Section, lib: Library)
    requires Passes(z, lib)
    ensures Unremarked([z], lib)
  {
    hide TakesGuests, HasHazard;
  }

  lemma PassesName(z: Section, lib: Library)
    requires Passes(z, lib)
    ensures Opt(z, Name) != GUEST && z.kind.Zone?
  {
    hide TakesGuests, HasHazard;
  }

  lemma AllZones(st: State, z: Section, s: Section)
    requires st == Ordinary(st.lib, [z]) && z.kind.Zone? && s in st.firewall
    ensures s.kind.Zone?
  {
  }

  lemma NotElsewhere(a: State, p: Packet, s: Section)
    requires Kept(a) && s in a.firewall && s.id != Guest && !HeldByNegation(s) && Words(s, Subnet) == []
    ensures !InZone(s, a, p)
  {
    hide Kept, Words, HeldByNegation, TakesAddress, InZone;
    NoRange(a.lib, s, p);
    if InZone(s, a, p) {
      HeldHow(a, s, p);
    }
  }

  /** Everything but the uplink's port, open to the router. */
  function AllBut(): Section {
    ZoneOf("rest", map[Name := "rest", DeviceKey := "!eth0", Input := "ACCEPT"])
  }

  lemma AllButWords()
    ensures Words(AllBut(), DeviceKey) == ["!eth0"] && Words(AllBut(), Subnet) == [] && Words(AllBut(), Network) == []
    ensures Opt(AllBut(), Name) == "rest" && AllBut().id == OtherId("rest")
  {
    OneField("!eth0");
    NoWords(AllBut(), Network);
    NoWords(AllBut(), Subnet);
  }

  lemma NotTheBridgeDevice()
    ensures HasPrefix("!eth0", "!") && TrimPrefix("!eth0", "!") == "eth0" && !Names("eth0", BRIDGE)
  {
    assert "!eth0"[..1] == "!" && "!eth0"[1..] == "eth0";
    assert "eth0"[3..] == "0" && "0"[0] != "*"[0] && "0"[0] != "+"[0] && |BRIDGE| != |"eth0"|;
  }

  lemma RestIsAnother()
    ensures "rest" != "wan" && "rest" != GUEST && "rest" != "home" && "rest" != "out"
  {
    assert "rest"[0] != "wan"[0] && "rest"[0] != GUEST[0] && "rest"[0] != "home"[0] && "rest"[0] != "out"[0];
  }

  lemma AllButPasses(lib: Library)
    ensures Passes(AllBut(), lib) && Words(AllBut(), DeviceKey) == ["!eth0"] && Words(AllBut(), Subnet) == []
    ensures HeldByNegation(AllBut()) && !Names("eth0", BRIDGE)
  {
    AllButWords();
    NotTheBridgeDevice();
    RestIsAnother();
    var z, w := AllBut(), "!eth0";
    assert Src !in z.opts && z.kind.Zone?;
    hide Words, AllBut, HasPrefix, TrimPrefix, Names, Opt, Hazard;
    assert w in Words(z, DeviceKey) && HasPrefix(w, "!");
  }

  lemma AllButHolds(st: State, p: Packet)
    ensures InZone(AllBut(), st, p)
  {
    var z, w := AllBut(), "!eth0";
    AllButPasses(st.lib);
    hide Words, Names;
    assert "!eth0"[..1] == "!" && "!eth0"[1..] == "eth0";
    assert w in Words(z, DeviceKey) && DeviceHolds(w);
    assert z.opts.Keys <= ZONE_KEYS + {DeviceKey, Subnet};
  }

  lemma NewZoneHasNone(s: Section, wan: string)
    requires NewInFirewall(s, wan) && s.kind.Zone?
    ensures Words(s, Subnet) == []
  {
    OnlyZone(s, wan);
    ZoneFacts(s);
    NoWords(s, Subnet);
  }

  lemma OldZonesHaveNone(st: State, s: Section)
    requires st == Ordinary(st.lib, [AllBut()]) && s in st.firewall
    ensures Words(s, Subnet) == []
  {
    hide AllBut;
    assert s == st.firewall[0] || s == st.firewall[1] || s == AllBut();
    if s == AllBut() {
      AllButPasses(st.lib);
    } else {
      NoWords(s, Subnet);
    }
  }

  lemma NoneIsUncovered(a: State)
    requires forall s :: s in a.firewall && s.kind.Zone? && s.id != Guest ==> Words(s, Subnet) == []
    ensures !Covered(a)
  {
    hide Words, GuestNetworks, Overlaps, ZoneSubnets;
    forall p ensures p !in ZoneSubnets(a.lib, a.firewall) {
      ZoneSubnetsAreRanges(a.lib, a.firewall, p);
    }
  }

  lemma NoRangesAtAll(st: State, a: State)
    requires st == Ordinary(st.lib, [AllBut()]) && a.lib == st.lib
    requires a.firewall == st.firewall + NewFirewall("wan")
    ensures !Covered(a)
  {
    NewMembers("wan");
    hide Ordinary, Words, NewFirewall, NewInFirewall, AllBut, Covered;
    forall s | s in a.firewall && s.kind.Zone? ensures Words(s, Subnet) == [] {
      if s in NewFirewall("wan") {
        NewZoneHasNone(s, "wan");
      } else {
        OldZonesHaveNone(st, s);
      }
    }
    NoneIsUncovered(a);
  }

  /** A guest network made on a router with such a zone: the checks find nothing
      against it, and every guest is let to all of the router. */
  lemma NegationLeaks(lib: Library, ip: string, q: Request)
    ensures var a, p := After(Ordinary(lib, [AllBut()]), ip, false, q), Ssh(true, 0);
      GuestBlocker(a).None? && a.Shape().ours && Unique(a.firewall) && UplinkZone(a) == "wan"
      && FromGuest(a, p) && Accepted(a, p) && !Service(p)
  {
    var st := Ordinary(lib, [AllBut()]);
    var a, p := After(st, ip, false, q), Ssh(true, 0);
    AllButPasses(lib);
    SshIsSensible(true, 0);
    AllButHolds(a, p);
    OrdinaryZones(st, [AllBut()]);
    FirewallIs(st, ip, false, q);
    NetworkIs(st, ip, false, q);
    hide Ordinary, After, Covered, AllBut, Passes, InZone, Sensible, Accepted, GuestBlocker, State.Shape, Unique, UplinkZone, UplinkSection, Service, NewFirewall;
    NoRangesAtAll(st, a);
    FurtherZoneTakes(st, AllBut(), ip, q, p) by { AcceptsAll(); }
  }

  lemma AcceptsAll()
    ensures Opt(AllBut(), Input) == "ACCEPT"
  {
  }

  /** A zone of one range, open to the router. */
  function Ranged(range: string): Section {
    ZoneOf("rest", map[Name := "rest", Subnet := range, Input := "ACCEPT"])
  }

  /** How the library reads an address, and a range. */
  predicate ReadsAsAddress(lib: Library, w: string) {
    IsWord(w) && lib.prefix(w).None? && lib.addr(w).Some? && lib.addr(w).value.family == V4
  }

  predicate ReadsAsRange(lib: Library, w: string) {
    && IsWord(w) && !HasPrefix(w, "!")
    && lib.prefix(w).Some? && lib.prefix(w).value.family == V4 && lib.prefix(w).value.bits >= 8
  }

  predicate ReadsTwo(lib: Library, one: string, two: string, range: string) {
    && ReadsAsAddress(lib, one) && ReadsAsAddress(lib, two) && ReadsAsRange(lib, range)
    && lib.prefix(range).value.Contains(lib.addr(two).value.addr)
  }

  lemma RangedPasses(lib: Library, range: string)
    requires ReadsAsRange(lib, range)
    ensures Passes(Ranged(range), lib) && Words(Ranged(range), Subnet) == [range] && Unbound(Ranged(range))
    ensures Opt(Ranged(range), Input) == "ACCEPT"
  {
    var z := Ranged(range);
    OneField(range);
    NoWords(z, Network);
    NoWords(z, DeviceKey);
    hide Words;
    RestIsAnother();
  }

  lemma RangedHolds(st: State, range: string, a: nat)
    requires ReadsAsRange(st.lib, range) && st.lib.prefix(range).value.Contains(a)
    ensures InZone(Ranged(range), st, Ssh(false, a))
  {
    var z, p := Ranged(range), Ssh(false, a);
    RangedPasses(st.lib, range);
    hide Words;
    assert TrimPrefix(range, "!") == range;
    assert range in Words(z, Subnet) && RangeHolds(st.lib, range, p);
    assert z.opts.Keys <= ZONE_KEYS + {DeviceKey, Subnet};
  }

  /** The guests' two networks. */
  lemma TwoNetworks(lib: Library, one: string, two: string, range: string, a: State)
    requires ReadsTwo(lib, one, two, range) && a.lib == lib
    requires Find(a.network, Guest) == Some(IfaceSection(one + " " + two))
    ensures |GuestNetworks(a)| == 2 && !Covered(a)
    ensures GuestNetworks(a)[1].family == V4 && GuestNetworks(a)[1].Contains(lib.addr(two).value.addr)
  {
    var ip := one + " " + two;
    IfaceFacts(IfaceSection(ip), ip);
    TwoFields(one, two);
    hide IfaceSection, Fields, Find, Configured, Opt, ConfiguredAll;
    TwoConfigured(lib, one, two);
    ConfiguredHolds(lib, one);
    ConfiguredHolds(lib, two);
  }

  lemma TwoConfigured(lib: Library, one: string, two: string)
    ensures ConfiguredAll(lib, [one, two], MASK24) == Configured(lib, one, MASK24) + Configured(lib, two, MASK24)
  {
    hide Configured;
    var both := [one, two];
    assert both[1..] == [two] && [two][1..] == [];
    assert ConfiguredAll(lib, [two], MASK24) == Configured(lib, two, MASK24) + ConfiguredAll(lib, [], MASK24);
  }

  lemma TwoFields(one: string, two: string)
    requires IsWord(one) && IsWord(two)
    ensures Fields(one + " " + two) == [one, two]
  {
    hide Fields, IsWord;
    FieldsOfJoin([one, two]);
    assert [one, two][1..] == [two];
    assert one + (" " + two) == one + " " + two;
  }

  lemma ConfiguredHolds(lib: Library, addr: string)
    requires lib.prefix(addr).None? && lib.addr(addr).Some? && lib.addr(addr).value.family == V4
    ensures var g := Configured(lib, addr, MASK24);
      |g| == 1 && g[0].family == V4 && g[0].Contains(lib.addr(addr).value.addr)
  {
    var bits: nat := if lib.mask(MASK24).Some? then lib.mask(MASK24).value else 32;
    var p: Net := Prefix(V4, lib.addr(addr).value.addr, bits);
    MaskedSame(p, p.addr);
  }

  /** A guest network whose interface was given a second address: the range check
      is skipped, the checks find nothing, and a guest with an address there is
      let to all of the router. */
  lemma TwoAddressesLeak(lib: Library, one: string, two: string, range: string, q: Request)
    requires ReadsTwo(lib, one, two, range)
    ensures var a, p := After(Ordinary(lib, [Ranged(range)]), one + " " + two, false, q), Ssh(false, lib.addr(two).value.addr);
      GuestBlocker(a).None? && a.Shape().ours && Unique(a.firewall) && UplinkZone(a) == "wan"
      && FromGuest(a, p) && Accepted(a, p) && !Service(p)
  {
    var st, ip := Ordinary(lib, [Ranged(range)]), one + " " + two;
    var a, p := After(st, ip, false, q), Ssh(false, lib.addr(two).value.addr);
    RangedPasses(lib, range);
    SshIsSensible(false, lib.addr(two).value.addr);
    IsReady(st, [Ranged(range)]) by { OnlyOne(Ranged(range), lib); }
    hide Ordinary, After, Covered, Ranged, Passes, InZone, Sensible, Accepted, GuestBlocker, State.Shape, Unique, UplinkZone, UplinkSection, Service, NewFirewall, GuestNetworks, ReadsTwo, Ready, Uplink6, Clean, Words, Opt;
    MadeNetwork(st, ip, q);
    NetworkIs(st, ip, false, q);
    TwoNetworks(lib, one, two, range, a);
    RangedHolds(a, range, lib.addr(two).value.addr);
    assert GuestNetworks(a)[1] in GuestNetworks(a);
    FurtherZoneTakes(st, Ranged(range), ip, q, p);
  }

  /** The one range of the router is the further zone's. */
  lemma OnlyRange(st: State, a: State, range: string, p: Net)
    requires ReadsAsRange(st.lib, range) && st == Ordinary(st.lib, [Ranged(range)]) && a.lib == st.lib
    requires a.firewall == st.firewall + NewFirewall("wan") && p in ZoneSubnets(a.lib, a.firewall)
    ensures p == st.lib.prefix(range).value
  {
    hide Words, NewFirewall, NewInFirewall, ZoneSubnets, Ordinary, Ranged, HasPrefix, Passes, Unbound, Prefix.Contains;
    NewMembers("wan");
    RangedPasses(st.lib, range);
    ZoneSubnetsAreRanges(a.lib, a.firewall, p);
    var s :| s in a.firewall && BoundRange(a.lib, s, p);
    if s in NewFirewall("wan") {
      NewZoneHasNone(s, "wan");
    } else if s != Ranged(range) {
      NotTheRange(st, range, s);
    }
  }

  lemma NotTheRange(st: State, range: string, s: Section)
    requires st == Ordinary(st.lib, [Ranged(range)]) && s in st.firewall && s != Ranged(range)
    ensures Words(s, Subnet) == []
  {
    hide Ranged;
    assert s == st.firewall[0] || s == st.firewall[1];
    NoWords(s, Subnet);
  }

  /** The guests' one network, and a range apart from it. */
  predicate ReadsApart(lib: Library, one: string, range: string) {
    && ReadsAsAddress(lib, one) && ReadsAsRange(lib, range)
    && forall g :: g in Configured(lib, one, MASK24) ==> !Overlaps(lib.prefix(range).value, g)
  }

  lemma OneConfigured(a: State, one: string)
    requires IsWord(one) && Find(a.network, Guest) == Some(IfaceSection(one))
    ensures GuestNetworks(a) == Configured(a.lib, one, MASK24)
  {
    IfaceFacts(IfaceSection(one), one);
    OneField(one);
    hide IfaceSection, Fields, Find, Configured, Opt;
    assert [one][1..] == [];
    assert ConfiguredAll(a.lib, [one], MASK24) == Configured(a.lib, one, MASK24) + [];
  }

  lemma ApartIsUncovered(st: State, a: State, one: string, range: string)
    requires ReadsApart(st.lib, one, range) && st == Ordinary(st.lib, [Ranged(range)]) && a.lib == st.lib
    requires a.firewall == st.firewall + NewFirewall("wan") && Find(a.network, Guest) == Some(IfaceSection(one))
    ensures |GuestNetworks(a)| == 1 && !Covered(a)
  {
    hide GuestNetworks, IfaceSection, Find, Configured, Ordinary, NewFirewall, ZoneSubnets, Overlaps, Ranged;
    OneConfigured(a, one);
    ConfiguredHolds(a.lib, one);
    forall p | p in ZoneSubnets(a.lib, a.firewall) ensures !Overlaps(p, GuestNetworks(a)[0]) {
      OnlyRange(st, a, range, p);
    }
  }

  /** A guest network of one address, made on a router with an open zone of some
      other range: the checks find nothing, no zone holds an address assigned to a
      guest, and a guest that uses an address of that range instead is let to all
      of the router. */
  lemma ChosenAddressLeaks(lib: Library, one: string, range: string, q: Request)
    requires ReadsApart(lib, one, range)
    ensures var a := After(Ordinary(lib, [Ranged(range)]), one, false, q);
      var p := Ssh(false, lib.prefix(range).value.addr);
      GuestBlocker(a).None? && a.Shape().ours && Unique(a.firewall) && UplinkZone(a) == "wan"
      && |GuestNetworks(a)| == 1 && NoneHoldsAssigned(a, Ahead(a.firewall)) && Sensible(p) && Accepted(a, p) && !Service(p)
  {
    hide Ordinary, After, Covered, Ranged, Passes, InZone, Sensible, Accepted, GuestBlocker, State.Shape, Unique, UplinkZone, Service, NewFirewall, GuestNetworks, ReadsApart, Ready, Uplink6, Words, Opt, Kept, Ahead, NoneByNegation, NoneHoldsAssigned, Ssh, Unbound, ReadsAsRange, Prefix.Contains;
    var st, z := Ordinary(lib, [Ranged(range)]), Ranged(range);
    ReadsItsRange(lib, one, range);
    var a, p := After(st, one, false, q), Ssh(false, lib.prefix(range).value.addr);
    OrdinaryLib(lib, [z]);
    RangedPasses(lib, range);
    SshIsSensible(false, lib.prefix(range).value.addr);
    RangedIsByAddress(st, range);
    MadeNetwork(st, one, q);
    NetworkIs(st, one, false, q);
    FirewallIs(st, one, false, q);
    ApartIsUncovered(st, a, one, range);
    RangedHolds(a, range, lib.prefix(range).value.addr);
    FurtherZoneTakes(st, z, one, q, p);
    FurtherZoneChecks(st, z, one, q);
    OneNetwork(a);
  }

  lemma ReadsItsRange(lib: Library, one: string, range: string)
    requires ReadsApart(lib, one, range)
    ensures ReadsAsRange(lib, range) && lib.prefix(range).Some? && lib.prefix(range).value.Contains(lib.prefix(range).value.addr)
  {
  }

  lemma OrdinaryLib(lib: Library, more: seq<Section>)
    ensures Ordinary(lib, more).lib == lib
  {
  }

  lemma RangedIsByAddress(st: State, range: string)
    requires ReadsAsRange(st.lib, range) && st == Ordinary(st.lib, [Ranged(range)])
    ensures NoneByNegation(st.firewall) && Ready(st) && UplinkZone(st) == "wan"
  {
    var z := Ranged(range);
    RangedPasses(st.lib, range);
    OnlyOne(z, st.lib);
    IsReady(st, [z]);
    hide Ordinary, Ranged, Words, Ready, UplinkZone;
  }

  /** The words of an example: 192.168.3.1, 10.9.9.1 and 10.9.9.0/24. */
  function Reader(): Library {
    LanAddresses.WordSize();
    var one: Net, two: Net, range: Net := Prefix(V4, 0xC0A80301, 32), Prefix(V4, 0x0A090901, 32), Prefix(V4, 0x0A090900, 24);
    Library(v => if v == "10.9.9.0/24" then Some(range) else None,
            v => if v == "192.168.3.1" then Some(one) else if v == "10.9.9.1" then Some(two) else None,
            v => if v == MASK24 then Some(24) else None)
  }

  lemma ReaderReads()
    ensures ReadsTwo(Reader(), "192.168.3.1", "10.9.9.1", "10.9.9.0/24")
    ensures ReadsApart(Reader(), "192.168.3.1", "10.9.9.0/24")
  {
    hide Pow2;
    assert |"10.9.9.0/24"| != |"10.9.9.1"| && |"192.168.3.1"| == |"10.9.9.0/24"| && "192.168.3.1"[1] != "10.9.9.0/24"[1];
    assert "10.9.9.0/24"[..1][0] != "!"[0];
    LanAddresses.WordSize();
    var range: Net := Prefix(V4, 0x0A090900, 24);
    GuestSubnet.SizeOf24();
    AlignedInterval(range, 0x0A090901);
    FarApart();
  }

  lemma FarApart()
    ensures Prefix(V4, 0xC0A80301, 24).Valid() && Prefix(V4, 0x0A090900, 24).Valid()
    ensures !Overlaps(Prefix(V4, 0x0A090900, 24), Prefix(V4, 0xC0A80301, 24).Masked())
  {
    hide Pow2;
    LanAddresses.WordSize();
    GuestSubnet.SizeOf24();
    var home: Net, range: Net := Prefix(V4, 0xC0A80301, 24), Prefix(V4, 0x0A090900, 24);
    var p, q := home.Masked().Masked(), range.Masked();
    AlignedInterval(p, q.addr);
    AlignedInterval(q, p.addr);
  }

  lemma MadeNetwork(st: State, ip: string, q: Request)
    requires Ready(st)
    ensures Find(After(st, ip, false, q).network, Guest) == Some(IfaceSection(ip))
  {
    ReadyIsClean(st);
    CleanIsEmpty(st);
    NothingIsFresh(FilesOf(st));
    NetworkIs(st, ip, false, q);
    RenumberedAlike(st.network, false);
    hide Ready, Clean, NothingThere, Fresh, AllAlike, Find, DevSection, IfaceSection, Renumbered, After, OtherOnBridge, Made;
    NetworkAfter(st.network, Renumbered(st.network, false), DevSection(), IfaceSection(ip), ip);
  }

  // ---- An IPv6 uplink that bears the guests' name ----

  function NamedGuest(lib: Library): State {
    Ordinary(lib, []).(ifaces := [Live("wan", true, false, [], [], []), Live(GUEST, false, true, [], [], [])])
  }

  lemma StillWan(ifaces: seq<Live>)
    requires ifaces == [Live("wan", true, false, [], [], []), Live(GUEST, false, true, [], [], [])]
    ensures PickUplink(ifaces) == "wan" && FirstRoute6(ifaces) == GUEST
  {
    assert "wan"[0] != "loopback"[0] && |"wan"| != |"lo"| && GUEST[0] != "loopback"[0] && |GUEST| != |"lo"|;
    assert ifaces[1..][1..] == [] && ifaces[1..][0] == ifaces[1];
    assert Candidates(ifaces[1..]) == [GUEST];
    assert Candidates(ifaces) == ["wan", GUEST];
  }

  lemma NamedGuestZones(st: State)
    requires st == NamedGuest(st.lib)
    ensures UplinkSection(st.firewall, st.ifaces) == Some(st.firewall[1]) && UplinkZone(st) == "wan" && LAN !in Words(st.firewall[1], Network)
    ensures Uplink6(st) == GUEST && Uplink6Zone(st) == ""
    ensures forall s :: s in st.firewall ==> Words(s, Subnet) == []
  {
    hide Words, PickUplink, FirstRoute6, ZoneWith;
    var o := Ordinary(st.lib, []);
    OrdinaryZones(o, []);
    StillWan(st.ifaces);
    assert st.firewall == [st.firewall[0], st.firewall[1]] + [] && st.firewall[..2] == st.firewall;
    assert "lan"[0] != "wan"[0] && GUEST[0] != "lan"[0] && GUEST[0] != "wan"[0];
    SecondZone(st.firewall[0], st.firewall[1], [], "wan");
    NeitherZone(st.firewall, GUEST);
  }

  lemma NeitherZone(firewall: seq<Section>, net: string)
    requires |firewall| == 2 && net !in Words(firewall[0], Network) && net !in Words(firewall[1], Network)
    ensures ZoneWith(firewall, net).None?
  {
    hide Words;
    assert forall s :: s in firewall ==> s == firewall[0] || s == firewall[1];
  }

  /** There a guest network can be made, and the one made is blocked. */
  lemma NamedGuestIsBlocked(lib: Library, ip: string, q: Request)
    ensures var st := NamedGuest(lib);
      Ready(st) && Uplink6(st) == GUEST && GuestBlocker(After(st, ip, false, q)) == Some(SplitUplink)
  {
    var st := NamedGuest(lib);
    NamedGuestIsReady(st);
    NamedGuestZones(st);
    hide NamedGuest, Ready, After, Covered, Words, UplinkSection, UplinkZone, Uplink6, Uplink6Zone, GuestBlocker;
    MadeUncovered(st, ip, q);
    UncoveredAgrees(st, ip, false, q);
  }

  lemma NamedGuestIsReady(st: State)
    requires st == NamedGuest(st.lib)
    ensures Ready(st)
  {
    var o := Ordinary(st.lib, []);
    NamedGuestZones(st);
    OrdinaryShape(o, []);
    OrdinaryNames(o, []);
    assert o.firewall == st.firewall && o.network == st.network && st.firewall[..2] == st.firewall;
    hide Ready, Ordinary, NamedGuest, Words, OpenToAll, TakesGuests, HasHazard, NoNat, OpensFromGuests, Reflects, HoldsHome, UplinkSection, UplinkZone, Uplink6Zone, Opt;
    forall s | s in st.firewall
      ensures !OpenToAll(s) && !TakesGuests(s) && !HasHazard(st.lib, s) && !NoNat(s, "wan") && !OpensFromGuests(s, "wan") && !Reflects(s)
      ensures Opt(s, Name) == "wan" ==> !HoldsHome(s, st.network)
    {
      OrdinaryZone(o, [], s);
    }
    NothingBlocks(st);
  }

  lemma MadeUncovered(st: State, ip: string, q: Request)
    requires forall s :: s in st.firewall ==> Words(s, Subnet) == []
    ensures !Covered(After(st, ip, false, q))
  {
    hide Words, NewFirewall, NewInFirewall, Covered, After, UplinkZone;
    FirewallIs(st, ip, false, q);
    NewMembers(UplinkZone(st));
    var a := After(st, ip, false, q);
    forall s | s in a.firewall && s.kind.Zone? ensures Words(s, Subnet) == [] {
      if s in NewFirewall(UplinkZone(st)) {
        NewZoneHasNone(s, UplinkZone(st));
      }
    }
    NoneIsUncovered(a);
  }
}
