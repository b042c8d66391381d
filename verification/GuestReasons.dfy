/** What the checks of the guest network say of it: each reason is told when it is
    the first that holds, in the order in which they are looked for
    (internal/adapters/openwrt/wifi_guest.go). */
module GuestReasons {
  import opened Outcomes
  import opened Text
  import opened UciSections
  import opened GuestRecipe
  import opened GuestChecks

  // ---- Which interface leads out ----

  /** A way to the internet, which loopback never is. */
  predicate WayOut(i: Live) { (i.route4 || i.route6) && i.name != "loopback" && i.name != "lo" }

  predicate CalledWan(name: string) { EqualFold(name, "wan") }

  predicate HasWan(name: string) { Holds(ToLower(name), "wan") }

  lemma {:induction false} CandidatesAre(ifaces: seq<Live>)
    ensures forall x :: x in Candidates(ifaces) <==> exists i :: i in ifaces && WayOut(i) && i.name == x
  {
    if ifaces != [] {
      CandidatesAre(ifaces[1..]);
      assert forall i :: i in ifaces <==> i == ifaces[0] || i in ifaces[1..];
    }
  }

  lemma {:induction false} NamedWanIs(names: seq<string>)
    ensures NamedWan(names).Some? ==> NamedWan(names).value in names && CalledWan(NamedWan(names).value)
    ensures NamedWan(names).None? <==> forall x :: x in names ==> !CalledWan(x)
  {
    if names != [] {
      NamedWanIs(names[1..]);
      assert forall x :: x in names <==> x == names[0] || x in names[1..];
    }
  }

  lemma {:induction false} WithWanIs(names: seq<string>)
    ensures forall x :: x in WithWan(names) <==> x in names && HasWan(x)
  {
    if names != [] {
      WithWanIs(names[1..]);
      assert forall x :: x in names <==> x == names[0] || x in names[1..];
    }
  }

  /** Two that could be it by their names. */
  predicate SeveralWan(ifaces: seq<Live>) {
    exists i, j :: 0 <= i < j < |ifaces| && WayOut(ifaces[i]) && WayOut(ifaces[j]) && HasWan(ifaces[i].name) && HasWan(ifaces[j].name)
  }

  predicate OneWan(ifaces: seq<Live>) {
    (exists i :: i in ifaces && WayOut(i) && HasWan(i.name)) && !SeveralWan(ifaces)
  }

  lemma {:induction false} ManyWithWan(ifaces: seq<Live>)
    ensures |WithWan(Candidates(ifaces))| > 1 ==> SeveralWan(ifaces)
  {
    hide HasWan, WayOut;
    if ifaces != [] {
      var names, rest := Candidates(ifaces), Candidates(ifaces[1..]);
      CandidatesAre(ifaces[1..]);
      WithWanIs(rest);
      FirstCandidate(ifaces);
      if |WithWan(rest)| > 1 {
        ManyWithWan(ifaces[1..]);
        var i, j :| 0 <= i < j < |ifaces| - 1 && WayOut(ifaces[1..][i]) && WayOut(ifaces[1..][j])
          && HasWan(ifaces[1..][i].name) && HasWan(ifaces[1..][j].name);
        assert ifaces[i + 1] == ifaces[1..][i] && ifaces[j + 1] == ifaces[1..][j];
      } else if |WithWan(names)| > 1 {
        assert WithWan(rest)[0] in WithWan(rest);
        var l :| l in ifaces[1..] && WayOut(l) && l.name == WithWan(rest)[0];
        var k :| 0 <= k < |ifaces| - 1 && ifaces[1..][k] == l;
        assert ifaces[k + 1] == l;
      }
    }
  }

  lemma FirstCandidate(ifaces: seq<Live>)
    requires ifaces != []
    ensures WithWan(Candidates(ifaces)) ==
      (if WayOut(ifaces[0]) && HasWan(ifaces[0].name) then [ifaces[0].name] else []) + WithWan(Candidates(ifaces[1..]))
  {
    if WayOut(ifaces[0]) {
      assert Candidates(ifaces)[1..] == Candidates(ifaces[1..]);
    } else {
      assert Candidates(ifaces) == Candidates(ifaces[1..]);
    }
  }

  /** The uplink leads out, if anything does. Of several that do it is one called
      wan, in any letters, if there is one; else the only one with wan in its
      name, if there is just one. */
  lemma UplinkIsPicked(ifaces: seq<Live>)
    ensures (exists i :: i in ifaces && WayOut(i)) ==> exists i :: i in ifaces && WayOut(i) && i.name == PickUplink(ifaces)
    ensures (forall i :: i in ifaces ==> !WayOut(i)) ==> PickUplink(ifaces) == ""
    ensures (exists i :: i in ifaces && WayOut(i) && CalledWan(i.name)) ==> CalledWan(PickUplink(ifaces))
    ensures OneWan(ifaces) && (forall i :: i in ifaces && WayOut(i) ==> !CalledWan(i.name)) ==> HasWan(PickUplink(ifaces))
  {
    hide Holds, EqualFold, ToLower, HasWan, CalledWan, SeveralWan, WayOut, Candidates, NamedWan, WithWan;
    var names := Candidates(ifaces);
    CandidatesAre(ifaces);
    NamedWanIs(names);
    WithWanIs(names);
    ManyWithWan(ifaces);
    if names != [] {
      assert names[0] in names;
    }
    if WithWan(names) != [] {
      assert WithWan(names)[0] in WithWan(names);
    }
    if i :| i in ifaces && WayOut(i) {
      assert i.name in names && PickUplink(ifaces) in names;
    }
  }

  lemma {:induction false} FirstRouteIs(ifaces: seq<Live>)
    requires forall i :: i in ifaces ==> i.name != ""
    ensures FirstRoute6(ifaces) == "" <==> forall i :: i in ifaces ==> !i.route6
    ensures FirstRoute6(ifaces) != "" ==> exists i :: i in ifaces && i.route6 && i.name == FirstRoute6(ifaces)
  {
    if ifaces != [] {
      FirstRouteIs(ifaces[1..]);
      assert forall i :: i in ifaces <==> i == ifaces[0] || i in ifaces[1..];
    }
  }

  predicate AsksForIPv6(s: Section) { s.kind.Interface? && Opt(s, Proto) == "dhcpv6" }

  lemma {:induction false} FirstClientIs(network: seq<Section>)
    ensures (exists s :: s in network && AsksForIPv6(s)) ==> exists s :: s in network && AsksForIPv6(s) && IdWord(s.id) == FirstDhcpv6(network)
    ensures (forall s :: s in network ==> !AsksForIPv6(s)) ==> FirstDhcpv6(network) == ""
  {
    if network != [] {
      FirstClientIs(network[1..]);
      assert network[0] in network;
      assert forall s :: s in network <==> s == network[0] || s in network[1..];
    }
  }

  /** The IPv6 uplink has an IPv6 default route if any interface has; if none has
      it asks for one by DHCPv6, if any does. */
  lemma Uplink6IsPicked(st: State)
    requires forall i :: i in st.ifaces ==> i.name != ""
    ensures (exists i :: i in st.ifaces && i.route6) ==> exists i :: i in st.ifaces && i.route6 && i.name == Uplink6(st)
    ensures (forall i :: i in st.ifaces ==> !i.route6) && (exists s :: s in st.network && AsksForIPv6(s)) ==>
      exists s :: s in st.network && AsksForIPv6(s) && IdWord(s.id) == Uplink6(st)
    ensures (forall i :: i in st.ifaces ==> !i.route6) && (forall s :: s in st.network ==> !AsksForIPv6(s)) ==> Uplink6(st) == ""
  {
    hide FirstRoute6, FirstDhcpv6, AsksForIPv6;
    FirstRouteIs(st.ifaces);
    FirstClientIs(st.network);
  }

  // ---- Which devices a word names ----

  /** A word names the device it spells; with a `+` or a `*` at its end, every
      device whose name begins as it does. */
  lemma NamesMeans(stem: string, dev: string)
    ensures Names(stem + "+", dev) <==> stem <= dev
    ensures stem == "" || stem[|stem| - 1] != '+' ==> (Names(stem + "*", dev) <==> stem <= dev)
    ensures stem == "" || (stem[|stem| - 1] != '+' && stem[|stem| - 1] != '*') ==> (Names(stem, dev) <==> stem == dev)
  {
    var plus, star := stem + "+", stem + "*";
    assert plus[|stem|..] == "+" && plus[..|stem|] == stem && "+"[0] != "*"[0];
    assert star[|stem|..] == "*" && star[..|stem|] == stem;
    assert stem != "" ==> stem[|stem| - 1..] == [stem[|stem| - 1]];
    assert plus == dev ==> stem <= dev;
    assert star == dev ==> stem <= dev;
  }

  /** The zone of the home network: by its name, or by its device, which is
      br-lan unless the network says otherwise. */
  lemma HomeIsFound(s: Section, network: seq<Section>, dev: string)
    requires s.kind.Zone? && HasPrefix(dev, "br-")
    requires dev == if Find(network, Lan).None? || Opt(Find(network, Lan).value, DeviceKey) == "" then "br-lan" else Opt(Find(network, Lan).value, DeviceKey)
    ensures "lan" in Words(s, Network) || dev in Words(s, DeviceKey) ==> HoldsHome(s, network)
  {
    hide Words, Find, Names;
    BridgeWord(dev);
  }

  lemma BridgeWord(dev: string)
    requires HasPrefix(dev, "br-")
    ensures TrimPrefix(dev, "!") == dev && Names(dev, dev)
  {
    assert dev[..3][0] == 'b' && dev[..1] == "b";
    assert "b"[0] != "!"[0];
  }

  // ---- What is told ----

  /** What is amiss with the guest network as it is, whatever else is. */
  predicate Amiss(st: State, w: Weakness) {
    var zone, fwd, wan := Find(st.firewall, Guest), Find(st.firewall, Own(Wan)), UplinkZone(st);
    match w
    case ZoneMissing => zone.None? || !zone.value.kind.Zone?
    case InputOpen => zone.Some? && !Closed(Opt(zone.value, Input))
    case ForwardOpen => zone.Some? && !Closed(Opt(zone.value, Forward))
    case ZoneMoved => zone.Some? && (Opt(zone.value, Name) != GUEST || Opt(zone.value, Network) != GUEST)
    case ZoneOption => zone.Some? && exists k :: k in zone.value.opts && k !in ZONE_KEYS
    case BridgeOption => exists s :: s in st.network && BridgeChanged(s)
    case BridgeShared => exists s :: s in st.network && OtherOnBridge(s)
    case SubnetHazard => exists s :: s in st.firewall && HasHazard(st.lib, s)
    case SubnetCovered => Covered(st)
    case NoForwarding => fwd.None? || !LetsOut(fwd.value)
    case ForwardingElsewhere => fwd.Some? && Opt(fwd.value, Dest) != wan
    case GuestsTaken => exists s :: s in st.firewall && TakesGuests(s)
    case RuleChanged => exists r :: r in RULES && !Stands(st.firewall, r, wan)
    case Opening => GuestOpenings(st.firewall, wan, RULES)
    case IfaceMoved => exists s :: s in st.wireless && OwnIface(s) && Opt(s, Network) != GUEST
    case StrayIface => exists s :: s in st.wireless && s.kind.WifiIface? && !s.id.Own? && OnGuest(s)
    case NotIsolated => exists s :: s in st.wireless && OwnIface(s) && Opt(s, Network) == GUEST && !KeptApart(s)
  }

  predicate LetsOut(f: Section) { f.kind.Forwarding? && Opt(f, Src) == GUEST && Opt(f, Enabled) != "0" }

  /** The rule is there as it was made. */
  predicate Stands(firewall: seq<Section>, r: Role, wan: string)
    requires r in RULES
  {
    exists s :: s in firewall && Find(firewall, Own(r)) == Some(s) && ReadsAs(Spec(r, wan), s)
  }

  /** Guests of an access point reach neither one another nor those of others. */
  predicate KeptApart(s: Section) { Opt(s, Isolate) == "1" && Opt(s, BridgeIsolate) == "1" }

  /** The order in which what is amiss is told. */
  function Turn(w: Weakness): nat {
    match w
    case ZoneMissing => 0
    case InputOpen => 1
    case ForwardOpen => 2
    case ZoneMoved => 3
    case ZoneOption => 4
    case BridgeOption => 5
    case BridgeShared => 6
    case SubnetHazard => 7
    case SubnetCovered => 8
    case NoForwarding => 9
    case ForwardingElsewhere => 10
    case GuestsTaken => 11
    case RuleChanged => 12
    case Opening => 13
    case IfaceMoved => 14
    case StrayIface => 15
    case NotIsolated => 16
  }

  /** What is told of the panel's own guest network is the first thing amiss, and
      nothing exactly when nothing is. */
  lemma WeakenedIsFirst(st: State)
    requires st.Shape().ours
    ensures GuestWeakened(st).None? <==> forall w: Weakness :: !Amiss(st, w)
    ensures GuestWeakened(st).Some? ==> Amiss(st, GuestWeakened(st).value)
    ensures GuestWeakened(st).Some? ==>
      forall w: Weakness :: Turn(w) < Turn(GuestWeakened(st).value) ==> !Amiss(st, w)
  {
    hide Amiss, GuestWeakened;
    if GuestWeakened(st).Some? {
      ToldIsAmiss(st);
    }
    forall w: Weakness | Amiss(st, w) ensures GuestWeakened(st).Some? && Turn(GuestWeakened(st).value) <= Turn(w) {
      AmissIsTold(st, w);
    }
  }

  lemma ToldIsAmiss(st: State)
    requires st.Shape().ours && GuestWeakened(st).Some?
    ensures Amiss(st, GuestWeakened(st).value)
  {
    hide Closed, UplinkZone, BridgeChanged, OtherOnBridge, HasHazard, Covered, TakesGuests, ReadsAs, Spec, GuestOpenings, OwnIface, OnGuest, Find, Made, Orphaned, ZONE_KEYS, RULES, RulesAsMade, Stands, State.Shape, KeptApart, Words, Opt, LetsOut, UplinkSection;
    ZoneOptions(st);
    Outward(st);
    RulesStand(st);
    OnAccessPoints(st);
  }

  lemma AmissIsTold(st: State, w: Weakness)
    requires st.Shape().ours && Amiss(st, w)
    ensures GuestWeakened(st).Some? && Turn(GuestWeakened(st).value) <= Turn(w)
  {
    hide Closed, UplinkZone, BridgeChanged, OtherOnBridge, HasHazard, Covered, TakesGuests, ReadsAs, Spec, GuestOpenings, OwnIface, OnGuest, Find, Made, Orphaned, ZONE_KEYS, RULES, RulesAsMade, Stands, State.Shape, KeptApart, Words, Opt, LetsOut, UplinkSection;
    ZoneOptions(st);
    Outward(st);
    RulesStand(st);
    OnAccessPoints(st);
  }

  lemma ZoneOptions(st: State)
    ensures Amiss(st, ZoneOption) <==>
      Find(st.firewall, Guest).Some? && !(Find(st.firewall, Guest).value.opts.Keys <= ZONE_KEYS)
  {
    hide Find, ZONE_KEYS;
  }

  lemma Outward(st: State)
    ensures Amiss(st, NoForwarding) <==>
      var fwd := Find(st.firewall, Own(Wan));
      fwd.None? || !fwd.value.kind.Forwarding? || Opt(fwd.value, Src) != GUEST || Opt(fwd.value, Enabled) == "0"
  {
    hide Find, Opt;
  }

  lemma RulesStand(st: State)
    ensures RulesAsMade(st.firewall, UplinkZone(st)) <==> !Amiss(st, RuleChanged)
  {
    hide ReadsAs, Spec, RULES, UplinkZone, Find;
    forall r | r in RULES
      ensures Stands(st.firewall, r, UplinkZone(st)) <==>
        Find(st.firewall, Own(r)).Some? && ReadsAs(Spec(r, UplinkZone(st)), Find(st.firewall, Own(r)).value)
    {
    }
  }

  /** What of the guest network is found among the access points. */
  lemma OnAccessPoints(st: State)
    requires st.Shape().ours
    ensures Amiss(st, IfaceMoved) <==> exists s :: s in st.Shape().owned && Opt(s, Network) != GUEST
    ensures Amiss(st, StrayIface) <==> st.Shape().stray != []
    ensures Amiss(st, NotIsolated) <==>
      exists s :: s in st.Shape().ifaces && (Opt(s, Isolate) != "1" || Opt(s, BridgeIsolate) != "1")
  {
    hide Made, Orphaned, OwnIface, OnGuest, Opt, Traces, In, Find, KeptApart, LetsOut, Closed, UplinkZone, BridgeChanged, OtherOnBridge, HasHazard, Covered, TakesGuests, Stands, GuestOpenings, ZONE_KEYS, RULES, State.Shape;
    ShapeParts(st);
    OwnedMoved(st.wireless);
    NoneStray(st.wireless);
    AttachedApart(st.wireless);
  }

  lemma ShapeParts(st: State)
    requires st.Shape().ours
    ensures st.Shape().owned == In(Owned, st.wireless) && st.Shape().ifaces == In(Attached, st.wireless)
    ensures st.Shape().stray == In(Stray, st.wireless)
  {
    hide Made, Orphaned, In, Traces;
  }

  lemma OwnedMoved(wireless: seq<Section>)
    ensures (exists s :: s in In(Owned, wireless) && Opt(s, Network) != GUEST) <==>
      exists s :: s in wireless && OwnIface(s) && Opt(s, Network) != GUEST
  {
    hide OwnIface, Opt;
  }

  lemma NoneStray(wireless: seq<Section>)
    ensures In(Stray, wireless) != [] <==> exists s :: s in wireless && s.kind.WifiIface? && !s.id.Own? && OnGuest(s)
  {
    hide OnGuest;
    if In(Stray, wireless) != [] {
      assert In(Stray, wireless)[0] in In(Stray, wireless);
    }
  }

  lemma AttachedApart(wireless: seq<Section>)
    ensures (exists s :: s in In(Attached, wireless) && (Opt(s, Isolate) != "1" || Opt(s, BridgeIsolate) != "1")) <==>
      exists s :: s in wireless && OwnIface(s) && Opt(s, Network) == GUEST && !KeptApart(s)
  {
    hide OwnIface, Opt;
  }

  /** What stands in the way of guests, whatever else does. */
  predicate InTheWay(st: State, b: Blocked) {
    var zone := UplinkZone(st);
    match b
    case NoUplink => zone == ""
    case SharedZone => UplinkSection(st.firewall, st.ifaces).Some?
      && (LAN in Words(UplinkSection(st.firewall, st.ifaces).value, Network)
          || exists s :: s in st.firewall && Opt(s, Name) == zone && HoldsHome(s, st.network))
    case NoNAT => exists s :: s in st.firewall && s.kind.Zone? && Opt(s, Name) == zone && !HidesAll(s)
    case SplitUplink => Uplink6Zone(st) != "" && Uplink6Zone(st) != zone
    case OpenRule => exists s :: s in st.firewall && OpenToAll(s)
    case NoDHCP => exists s :: s in st.dhcp && s.kind.Dnsmasq? && !Hears(s)
    case Weakened(w) => st.Shape().ours && Amiss(st, w)
    case GuestRule => !st.Shape().ours && Foreign(st, zone)
  }

  /** All that leaves by the zone has the router's own address. */
  predicate HidesAll(s: Section) { Opt(s, Masq) == "1" && Opt(s, MasqSrc) == "" && Opt(s, MasqDest) == "" }

  /** Something is there already for, or in the way of, a zone of guests. */
  predicate Foreign(st: State, zone: string) {
    GuestOpenings(st.firewall, zone, {}) || exists s :: s in st.firewall && (TakesGuests(s) || HasHazard(st.lib, s))
  }

  /** The DHCP server listens to the guests: to all but some interfaces, or to
      some, by the interface's name or by its device's. */
  predicate Hears(s: Section) {
    && (Words(s, InterfaceKey) == [] || exists w :: w in Words(s, InterfaceKey) && (w == GUEST || w == BRIDGE))
    && forall w :: w in Words(s, NotInterface) ==> w != GUEST && w != BRIDGE
  }

  function Order(b: Blocked): nat {
    match b
    case NoUplink => 0
    case SharedZone => 1
    case NoNAT => 2
    case SplitUplink => 3
    case OpenRule => 4
    case NoDHCP => 5
    case Weakened(w) => 6 + Turn(w)
    case GuestRule => 23
  }

  /** What is told is the first thing in the way, and nothing exactly when nothing
      is. */
  lemma BlockerIsFirst(st: State)
    ensures GuestBlocker(st).None? <==> forall b: Blocked :: !InTheWay(st, b)
    ensures GuestBlocker(st).Some? ==> InTheWay(st, GuestBlocker(st).value)
    ensures GuestBlocker(st).Some? ==>
      forall b: Blocked :: Order(b) < Order(GuestBlocker(st).value) ==> !InTheWay(st, b)
  {
    hide InTheWay, GuestBlocker;
    if GuestBlocker(st).Some? {
      ToldIsInTheWay(st);
    }
    forall b: Blocked | InTheWay(st, b) ensures GuestBlocker(st).Some? && Order(GuestBlocker(st).value) <= Order(b) {
      InTheWayIsTold(st, b);
    }
  }

  lemma ToldIsInTheWay(st: State)
    requires GuestBlocker(st).Some?
    ensures InTheWay(st, GuestBlocker(st).value)
  {
    hide Amiss, GuestWeakened, GuestOpenings, TakesGuests, HasHazard, HoldsHome, OpenToAll, UplinkSection, Uplink6Zone, GuestShape, Words, Turn;
    if st.Shape().ours {
      WeakenedIsFirst(st);
    }
    forall s | s in st.dhcp ensures SkipsGuests(s) <==> s.kind.Dnsmasq? && !Hears(s) {
    }
  }

  lemma InTheWayIsTold(st: State, b: Blocked)
    requires InTheWay(st, b)
    ensures GuestBlocker(st).Some? && Order(GuestBlocker(st).value) <= Order(b)
  {
    hide Amiss, GuestWeakened, GuestOpenings, TakesGuests, HasHazard, HoldsHome, OpenToAll, UplinkSection, Uplink6Zone, GuestShape, Words, Turn;
    if st.Shape().ours {
      WeakenedIsFirst(st);
    }
    Turns();
    forall s | s in st.dhcp ensures SkipsGuests(s) <==> s.kind.Dnsmasq? && !Hears(s) {
    }
  }

  lemma Turns()
    ensures forall w: Weakness :: Turn(w) <= 16
  {
  }
}
