/** What the writer makes, the checks accept
    (internal/adapters/openwrt/wifi_guest.go). */
module GuestAgreement {
  import opened Outcomes
  import opened Text
  import opened Prefixes
  import opened UciSections
  import opened GuestRecipe
  import opened GuestChecks
  import opened GuestSubnet
  import opened GuestWriter
  import opened GuestFirewall

  function FilesOf(st: State): Config { Config(st.network, st.wireless, st.dhcp, st.firewall) }

  function WithFiles(st: State, c: Config): State {
    st.(network := c.network, wireless := c.wireless, dhcp := c.dhcp, firewall := c.firewall)
  }

  /** What the router reads once the guest network is in its files. */
  function After(st: State, ip: string, renumber: bool, q: Request): State {
    WithFiles(st, WithGuests(FilesOf(st), ip, UplinkZone(st), renumber, q))
  }

  // ---- The new sections ----

  lemma ZoneFacts(z: Section)
    requires z == ZoneSection()
    ensures z.kind.Zone? && z.id == Guest && Closed(Opt(z, Input)) && Closed(Opt(z, Forward))
    ensures Opt(z, Name) == GUEST && Opt(z, Network) == GUEST && z.opts.Keys <= ZONE_KEYS && Opt(z, Src) == ""
  {
    hide Written, ToLower;
    Written5(map[], (Name, GUEST), (Network, GUEST), (Input, "REJECT"), (Output, "ACCEPT"), (Forward, "REJECT"));
    assert Src !in z.opts;
  }

  lemma WanFacts(s: Section, wan: string)
    requires s == WanSection(wan)
    ensures s.kind.Forwarding? && s.id == Own(Wan)
    ensures Opt(s, Src) == GUEST && Opt(s, Dest) == wan && Opt(s, Enabled) == "" && Opt(s, Name) == ""
  {
    hide Written;
    Written2(map[], (Src, GUEST), (Dest, wan));
    assert Enabled !in s.opts && Name !in s.opts;
  }

  lemma DevFacts(s: Section)
    requires s == DevSection()
    ensures s.kind.BridgeKind? && s.id == Own(Dev) && Opt(s, Name) == BRIDGE && !BridgeChanged(s)
  {
    hide Written;
    Written3(map[], (Name, BRIDGE), (Type, "bridge"), (BridgeEmpty, "1"));
    assert s.opts.Keys <= {Name, Type, BridgeEmpty};
  }

  lemma IfaceFacts(s: Section, ip: string)
    requires s == IfaceSection(ip)
    ensures s.kind.Interface? && s.id == Guest && Opt(s, DeviceKey) == BRIDGE
    ensures Opt(s, Proto) == "static" && Opt(s, IpAddr) == ip && Opt(s, Netmask) == MASK24
  {
    hide Written;
    Written5(map[], (DeviceKey, BRIDGE), (Proto, "static"), (IpAddr, ip), (Netmask, MASK24), (Ip6Assign, "64"));
  }

  lemma RadioFacts(s: Section, radio: string, q: Request)
    requires s == RadioSection(radio, q)
    ensures OwnIface(s) && Opt(s, Network) == GUEST
    ensures Opt(s, Isolate) == "1" && Opt(s, BridgeIsolate) == "1"
  {
    hide Written;
    var o := RadioOptions(radio, q);
    var m: map<Key, string> := map[];
    WrittenStep(m, o[0], o[1..]);
    WrittenStep(m[DeviceKey := radio], (Mode, "ap"), o[2..]);
    assert o == [o[0]] + o[1..] && o[1..] == [(Mode, "ap")] + o[2..];
    Written6(m[DeviceKey := radio][Mode := "ap"], (Network, GUEST), (Ssid, q.ssid), (Encryption, q.encryption), (Password, q.password),
      (Isolate, "1"), (BridgeIsolate, "1"));
  }

  /** The rule written is the rule the checks look for. */
  lemma RuleReads(r: Role, wan: string)
    requires r in RULES
    ensures ReadsAs(Spec(r, wan), RuleDone(r, wan)) && RuleDone(r, wan).id == Own(r) && RuleDone(r, wan).kind.Rule?
  {
    hide RuleMade, RuleName, Spec, ListWords, ListKey, Join;
    RuleMadeReads(r, wan);
    DoneIsNamed(r, wan);
    SpecParts(r, wan);
  }

  /** The recipe has no name of its own, and lists what the rule lists. */
  lemma SpecParts(r: Role, wan: string)
    requires r in RULES
    ensures Name !in Spec(r, wan) && Src in Spec(r, wan) && Spec(r, wan)[Src] == GUEST
    ensures ListWords(r) != [] ==> ListKey(r) in Spec(r, wan) && Spec(r, wan)[ListKey(r)] == Join(ListWords(r)) && ListKey(r) != Name
  {
    hide Join;
  }

  lemma RuleNames(r: Role, wan: string)
    requires r in RULES
    ensures Opt(RuleDone(r, wan), Src) == GUEST
  {
    hide RuleDone, Spec;
    RuleReads(r, wan);
    SpecParts(r, wan);
  }

  // ---- Files with more in them ----

  lemma {:induction false} FindInParts(a: seq<Section>, b: seq<Section>, id: Id)
    ensures Find(a + b, id) == if Find(a, id).Some? then Find(a, id) else Find(b, id)
  {
    if a == [] {
      assert a + b == b;
    } else {
      assert (a + b)[1..] == a[1..] + b;
      FindInParts(a[1..], b, id);
    }
  }

  lemma {:induction false} ZoneWithInParts(a: seq<Section>, b: seq<Section>, net: string)
    ensures ZoneWith(a + b, net) == if ZoneWith(a, net).Some? then ZoneWith(a, net) else ZoneWith(b, net)
  {
    hide Words;
    if a == [] {
      assert a + b == b;
    } else {
      assert (a + b)[1..] == a[1..] + b;
      ZoneWithInParts(a[1..], b, net);
    }
  }

  lemma {:induction false} ZoneNamedInParts(a: seq<Section>, b: seq<Section>, name: string)
    ensures ZoneNamed(a + b, name) == if ZoneNamed(a, name).Some? then ZoneNamed(a, name) else ZoneNamed(b, name)
  {
    hide Opt;
    if a == [] {
      assert a + b == b;
    } else {
      assert (a + b)[1..] == a[1..] + b;
      ZoneNamedInParts(a[1..], b, name);
    }
  }

  /** Renumbering the home network changes one option of it. */
  ghost predicate Alike(s: Section, t: Section) {
    s.id == t.id && s.kind == t.kind && forall k :: k != Ip6Assign ==> (k in s.opts <==> k in t.opts) && (k in s.opts ==> s.opts[k] == t.opts[k])
  }

  ghost predicate AllAlike(a: seq<Section>, b: seq<Section>) { |a| == |b| && forall i :: 0 <= i < |a| ==> Alike(a[i], b[i]) }

  lemma RenumberedAlike(network: seq<Section>, renumber: bool)
    ensures AllAlike(network, Renumbered(network, renumber))
  {
  }

  lemma OptAlike(s: Section, t: Section, k: Key)
    requires Alike(s, t) && k != Ip6Assign
    ensures Opt(s, k) == Opt(t, k)
  {
  }

  lemma {:induction false} FindAlike(a: seq<Section>, b: seq<Section>, id: Id)
    requires AllAlike(a, b)
    ensures Find(a, id).Some? <==> Find(b, id).Some?
    ensures Find(a, id).Some? ==> Alike(Find(a, id).value, Find(b, id).value)
  {
    hide Alike;
    if a != [] {
      assert Alike(a[0], b[0]);
      AlikeNamed(a[0], b[0]);
      assert forall i :: 0 <= i < |a[1..]| ==> a[1..][i] == a[i + 1] && b[1..][i] == b[i + 1];
      FindAlike(a[1..], b[1..], id);
    }
  }

  lemma AlikeNamed(s: Section, t: Section)
    requires Alike(s, t)
    ensures s.id == t.id && s.kind == t.kind
  {
  }

  lemma {:induction false} Dhcpv6Alike(a: seq<Section>, b: seq<Section>, more: seq<Section>)
    requires AllAlike(a, b) && forall s :: s in more ==> Opt(s, Proto) != "dhcpv6"
    ensures FirstDhcpv6(b + more) == FirstDhcpv6(a)
  {
    hide Alike, Opt;
    if a == [] {
      assert b + more == more;
      NoDhcpv6(more);
    } else {
      assert Alike(a[0], b[0]);
      AlikeNamed(a[0], b[0]);
      OptAlike(a[0], b[0], Proto);
      assert (b + more)[1..] == b[1..] + more;
      assert forall i :: 0 <= i < |a[1..]| ==> a[1..][i] == a[i + 1] && b[1..][i] == b[i + 1];
      Dhcpv6Alike(a[1..], b[1..], more);
    }
  }

  lemma {:induction false} NoDhcpv6(file: seq<Section>)
    requires forall s :: s in file ==> Opt(s, Proto) != "dhcpv6"
    ensures FirstDhcpv6(file) == ""
  {
    hide Opt;
    if file != [] {
      assert file[0] in file;
      NoDhcpv6(file[1..]);
    }
  }

  // ---- Before ----

  /** A configuration in which a guest network can be made. */
  predicate Ready(st: State) {
    !st.Shape().ours && !st.Shape().foreign && GuestBlocker(st).None?
  }

  /** What readiness comes to. */
  predicate Clean(st: State) {
    var wan := UplinkZone(st);
    && wan != "" && UplinkSection(st.firewall, st.ifaces).Some?
    && LAN !in Words(UplinkSection(st.firewall, st.ifaces).value, Network)
    && (forall s :: s in st.firewall ==>
          !OpenToAll(s) && !TakesGuests(s) && !HasHazard(st.lib, s) && !NoNat(s, wan) && (Opt(s, Name) == wan ==> !HoldsHome(s, st.network)))
    && (Uplink6Zone(st) == "" || Uplink6Zone(st) == wan)
    && (forall s :: s in st.dhcp ==> !SkipsGuests(s))
    && !GuestOpenings(st.firewall, wan, {})
    && NothingThere(FilesOf(st))
    && (forall s :: s in st.firewall && s.kind.Zone? ==> Opt(s, Name) != GUEST)
    && (forall s :: s in st.network ==> !OtherOnBridge(s))
    && (forall s :: s in st.wireless && s.kind.WifiIface? ==> !OnGuest(s))
  }

  lemma NoTraces(st: State)
    requires !Traces(st.network, st.firewall, st.wireless, st.dhcp)
    ensures NothingThere(FilesOf(st))
    ensures forall s :: s in st.firewall && s.kind.Zone? ==> Opt(s, Name) != GUEST
    ensures forall s :: s in st.network ==> !OtherOnBridge(s)
    ensures forall s :: s in st.wireless && s.kind.WifiIface? ==> !OnGuest(s)
  {
    hide OtherOnBridge, OnGuest, Opt;
    forall s | s in st.firewall
      ensures s.id != Guest && !(s.id.Own? && s.id.role in SECTIONS) && (s.kind.Zone? ==> Opt(s, Name) != GUEST)
    {
      assert !FirewallTraces(st.firewall);
    }
    assert !DhcpTraces(st.dhcp);
  }

  lemma ReadyIsClean(st: State)
    requires Ready(st)
    ensures Clean(st)
  {
    hide Traces, Made, Orphaned, UplinkSection, GuestOpenings, OpenToAll, TakesGuests, HasHazard, HoldsHome, OtherOnBridge, NoNat, SkipsGuests, Uplink6Zone, Opt, Words, NothingThere, OnGuest, In;
    NoTraces(st);
  }

  // ---- After ----

  predicate NewInFirewall(s: Section, wan: string) {
    s == ZoneSection() || s == WanSection(wan) || (s.id.Own? && s.id.role in RULES && s == RuleDone(s.id.role, wan))
  }

  function NewFirewall(wan: string): seq<Section> {
    RulesInOrder();
    [ZoneSection(), WanSection(wan)] + RuleSections(RuleOrder(), wan, true)
  }

  lemma FirewallIs(st: State, ip: string, renumber: bool, q: Request)
    ensures After(st, ip, renumber, q).firewall == st.firewall + NewFirewall(UplinkZone(st))
  {
    RulesInOrder();
    hide RuleSections, RuleOrder, ZoneSection, WanSection, RadioSections, DhcpSection, DevSection, IfaceSection, UplinkZone, Renumbered;
  }

  lemma NewMembers(wan: string)
    ensures forall s :: s in NewFirewall(wan) ==> NewInFirewall(s, wan)
  {
    RulesInOrder();
    hide ZoneSection, WanSection, RuleOrder, RuleDone;
    var rules := RuleSections(RuleOrder(), wan, true);
    forall s | s in rules ensures NewInFirewall(s, wan) {
      var k :| 0 <= k < |rules| && rules[k] == s;
      assert RuleOrder()[k] in RuleOrder();
      DoneIsNamed(RuleOrder()[k], wan);
    }
  }

  lemma {:induction false} FindRule(roles: seq<Role>, r: Role, wan: string)
    requires r in roles && forall x :: x in roles ==> x in RULES
    ensures Find(RuleSections(roles, wan, true), Own(r)) == Some(RuleDone(r, wan))
  {
    hide RuleDone;
    DoneIsNamed(roles[0], wan);
    if roles[0] != r {
      FindRule(roles[1..], r, wan);
      assert RuleSections(roles, wan, true)[1..] == RuleSections(roles[1..], wan, true);
    }
  }

  lemma FindFresh(file: seq<Section>, id: Id)
    requires Fresh(file, id)
    ensures Find(file, id).None?
  {
  }

  lemma FirstTwo(z: Section, w: Section, rules: seq<Section>, id: Id)
    ensures Find([z, w] + rules, id) == if z.id == id then Some(z) else if w.id == id then Some(w) else Find(rules, id)
  {
    var file := [z, w] + rules;
    assert file[1..] == [w] + rules && file[1..][1..] == rules;
  }

  lemma NewFindsHere(wan: string, id: Id)
    ensures id == Guest ==> Find(NewFirewall(wan), id) == Some(ZoneSection())
    ensures id == Own(Wan) ==> Find(NewFirewall(wan), id) == Some(WanSection(wan))
    ensures id.Own? && id.role in RULES ==> Find(NewFirewall(wan), id) == Some(RuleDone(id.role, wan))
  {
    RulesInOrder();
    hide Written, RuleOrder, RuleSections, RuleDone, Find;
    FirstTwo(ZoneSection(), WanSection(wan), RuleSections(RuleOrder(), wan, true), id);
    if id.Own? && id.role in RULES {
      FindRule(RuleOrder(), id.role, wan);
    }
  }

  lemma NewFinds(firewall: seq<Section>, wan: string, id: Id)
    requires Fresh(firewall, id)
    ensures id == Guest ==> Find(firewall + NewFirewall(wan), id) == Some(ZoneSection())
    ensures id == Own(Wan) ==> Find(firewall + NewFirewall(wan), id) == Some(WanSection(wan))
    ensures id.Own? && id.role in RULES ==> Find(firewall + NewFirewall(wan), id) == Some(RuleDone(id.role, wan))
  {
    hide Find, NewFirewall, ZoneSection, WanSection, RuleDone;
    FindFresh(firewall, id);
    FindInParts(firewall, NewFirewall(wan), id);
    NewFindsHere(wan, id);
  }

  /** The new sections open nothing and stand in nothing's place. */
  lemma NewIsHarmless(s: Section, wan: string, st: State)
    requires NewInFirewall(s, wan) && wan != GUEST
    ensures !OpenToAll(s) && !TakesGuests(s) && !HasHazard(st.lib, s) && !NoNat(s, wan) && !Reflects(s)
    ensures OpensFromGuests(s, wan) ==> Skipped(s.id, RULES)
    ensures s.kind.Zone? ==> s == ZoneSection() && Opt(s, Name) == GUEST
  {
    hide Written, ZoneSection, WanSection, RuleDone, Accepting, Words;
    assert GUEST != "*";
    if s == ZoneSection() {
      ZoneFacts(s);
    } else if s == WanSection(wan) {
      WanFacts(s, wan);
    } else {
      RuleReads(s.id.role, wan);
      RuleNames(s.id.role, wan);
    }
  }

  lemma ZoneIsFirst(wan: string)
    ensures |NewFirewall(wan)| > 0 && NewFirewall(wan)[0] == ZoneSection() && Words(ZoneSection(), Network) == [GUEST]
  {
    ZoneFacts(ZoneSection());
    OneField(GUEST);
    RulesInOrder();
    hide Fields, ZoneSection, WanSection, RuleSections;
  }

  lemma ZoneWithNew(wan: string, net: string)
    ensures ZoneWith(NewFirewall(wan), net) == if net == GUEST then Some(ZoneSection()) else None
  {
    hide Words, Fields, Written, ZoneSection, WanSection, RuleDone, NewFirewall, NewInFirewall, Opt;
    NewMembers(wan);
    var z := ZoneSection();
    ZoneFacts(z);
    ZoneIsFirst(wan);
    forall s | s in NewFirewall(wan) && s.kind.Zone? ensures s == z {
      OnlyZone(s, wan);
    }
    assert z in NewFirewall(wan);
  }

  lemma OnlyZone(s: Section, wan: string)
    requires NewInFirewall(s, wan) && s.kind.Zone?
    ensures s == ZoneSection()
  {
    hide Written, ZoneSection, RuleDone;
    if s == WanSection(wan) {
      WanFacts(s, wan);
    } else if s != ZoneSection() {
      RuleReads(s.id.role, wan);
    }
  }

  /** The uplink's zone is the one it was, and is not the guests'. */
  lemma UplinkStays(st: State, more: seq<Section>)
    requires Clean(st)
    ensures UplinkSection(st.firewall + more, st.ifaces) == UplinkSection(st.firewall, st.ifaces)
    ensures UplinkZone(st) != GUEST
  {
    hide Opt, Words, OpenToAll, TakesGuests, HasHazard, NoNat, HoldsHome, SkipsGuests, GuestOpenings, NothingThere, OtherOnBridge, OnGuest, Uplink6Zone, ZoneWith, ZoneNamed;
    var uplink := PickUplink(st.ifaces);
    if uplink != "" {
      ZoneWithInParts(st.firewall, more, uplink);
    } else {
      ZoneNamedInParts(st.firewall, more, "wan");
    }
    var s := UplinkSection(st.firewall, st.ifaces).value;
    assert s in st.firewall && s.kind.Zone?;
  }

  lemma NetworkIs(st: State, ip: string, renumber: bool, q: Request)
    ensures After(st, ip, renumber, q).network == Renumbered(st.network, renumber) + [DevSection(), IfaceSection(ip)]
    ensures After(st, ip, renumber, q).wireless == st.wireless + RadioSections(q.radios, q)
    ensures After(st, ip, renumber, q).dhcp == st.dhcp + [DhcpSection()]
    ensures After(st, ip, renumber, q).ifaces == st.ifaces && After(st, ip, renumber, q).lib == st.lib
  {
    hide RuleSections, RuleOrder, ZoneSection, WanSection, RadioSections, DhcpSection, DevSection, IfaceSection, UplinkZone, Renumbered;
  }

  lemma AlikeOnBridge(s: Section, t: Section)
    requires Alike(s, t)
    ensures OtherOnBridge(s) <==> OtherOnBridge(t)
  {
    OptAlike(s, t, DeviceKey);
    OptAlike(s, t, Ifname);
    hide Opt;
  }

  lemma NewFindsNetwork(was: seq<Section>, dev: Section, iface: Section)
    requires Fresh(was, Own(Dev)) && Fresh(was, Guest) && dev.id == Own(Dev) && iface.id == Guest
    ensures Find(was + [dev, iface], Own(Dev)) == Some(dev) && Find(was + [dev, iface], Guest) == Some(iface)
    ensures Find(was + [dev, iface], Lan) == Find(was, Lan)
  {
    assert [dev, iface][1..] == [iface] && [iface][1..] == [];
    FindFresh(was, Own(Dev));
    FindFresh(was, Guest);
    FindInParts(was, [dev, iface], Own(Dev));
    FindInParts(was, [dev, iface], Guest);
    FindInParts(was, [dev, iface], Lan);
  }

  /** The network file afterwards: the guests' own bridge and interface, and
      nothing else on that bridge. */
  lemma NetworkAfter(network: seq<Section>, was: seq<Section>, dev: Section, iface: Section, ip: string)
    requires Fresh(network, Own(Dev)) && Fresh(network, Guest) && AllAlike(network, was)
    requires forall s :: s in network ==> !OtherOnBridge(s)
    requires dev == DevSection() && iface == IfaceSection(ip)
    ensures Made(was + [dev, iface]) && Find(was + [dev, iface], Guest) == Some(iface)
    ensures forall s :: s in was + [dev, iface] ==> !OtherOnBridge(s) && !BridgeChanged(s)
    ensures LanDevice(was + [dev, iface]) == LanDevice(network) && FirstDhcpv6(was + [dev, iface]) == FirstDhcpv6(network)
  {
    hide Written, DevSection, IfaceSection, Words, Opt, Alike, BridgeChanged, OtherOnBridge, Find, FirstDhcpv6;
    DevFacts(dev);
    IfaceFacts(iface, ip);
    forall i | 0 <= i < |was| ensures was[i].id != Own(Dev) && was[i].id != Guest && !OtherOnBridge(was[i]) && !BridgeChanged(was[i]) {
      assert network[i] in network && Alike(network[i], was[i]);
      AlikeNamed(network[i], was[i]);
      AlikeOnBridge(network[i], was[i]);
      NotTheBridge(was[i]);
    }
    NewFindsNetwork(was, dev, iface);
    FindAlike(network, was, Lan);
    if Find(network, Lan).Some? {
      OptAlike(Find(network, Lan).value, Find(was, Lan).value, DeviceKey);
    }
    NotDhcpv6(dev, iface, ip);
    Dhcpv6Alike(network, was, [dev, iface]);
    GuestsOwn(dev, iface);
  }

  lemma NotTheBridge(s: Section)
    requires s.id != Own(Dev)
    ensures !BridgeChanged(s)
  {
  }

  lemma GuestsOwn(dev: Section, iface: Section)
    requires dev.kind.BridgeKind? && iface.id == Guest && iface.kind.Interface?
    ensures !OtherOnBridge(dev) && !OtherOnBridge(iface) && !BridgeChanged(iface)
  {
  }

  lemma NotDhcpv6(dev: Section, iface: Section, ip: string)
    requires dev == DevSection() && iface == IfaceSection(ip)
    ensures Opt(dev, Proto) != "dhcpv6" && Opt(iface, Proto) != "dhcpv6"
  {
    IfaceFacts(iface, ip);
    hide Written;
    Written3(map[], (Name, BRIDGE), (Type, "bridge"), (BridgeEmpty, "1"));
    assert "static"[0] != "dhcpv6"[0];
  }

  // ---- The checks afterwards ----

  /** How the library reads the router's own address in the guest network. */
  predicate ReadsAddress(lib: Library, ip: string, addr: nat) {
    IsWord(ip) && addr < Pow2(32) && lib.prefix(ip).None? && lib.addr(ip) == Some(Prefix(V4, addr, 32)) && lib.mask("255.255.255.0") == Some(24)
  }

  /** The first address of a /24 masks back to it. */
  lemma FirstAddress(c: Net)
    requires c.family == V4 && c.bits == 24 && c.Aligned() && c.addr + 1 < Pow2(32)
    ensures Prefix(V4, c.addr + 1, 24).Masked() == c
  {
    SizeOf24();
    hide Pow2;
  }

  lemma GuestNetworkIs(lib: Library, ip: string, c: Net)
    requires c.family == V4 && c.bits == 24 && c.Aligned() && ReadsAddress(lib, ip, c.addr + 1)
    ensures ConfiguredAll(lib, Fields(ip), MASK24) == [c]
  {
    OneField(ip);
    FirstAddress(c);
    hide Prefix.Masked, Prefix.Aligned, Pow2, Fields;
    assert [ip][1..] == [];
  }

  lemma ClearOfRanges(c: Net, p: Net, ifaces: seq<Live>, kernel: seq<Net>)
    requires c.family == V4 && c.Aligned() && Clear(c, ifaces, kernel) && p in kernel && p.family == V4 && p.bits >= MIN_LOCAL_BITS
    ensures !Overlaps(p, c)
  {
    hide Prefix.Masked, Prefix.Contains, Overlap;
    assert Taken(ifaces, kernel, p);
    OverlapByMask(c, p);
    AlignFixed(c.addr, c.Size());
    assert c.Masked() == c by { MaskedIs(c); }
  }

  lemma MaskedIs(c: Net)
    requires c.Aligned()
    ensures c.Masked() == c
  {
    AlignFixed(c.addr, c.Size());
  }

  /** No zone's range covers the new guest network. */
  lemma NotCovered(st: State, after: State, ip: string, c: Net, kernel: seq<Net>)
    requires c.family == V4 && c.bits == 24 && c.Aligned() && Clear(c, st.ifaces, kernel) && ReadsAddress(st.lib, ip, c.addr + 1)
    requires after.lib == st.lib && Find(after.network, Guest) == Some(IfaceSection(ip))
    requires forall s :: s in after.firewall && s.kind.Zone? && s.id != Guest ==> s in st.firewall && !HasHazard(st.lib, s)
    requires forall p :: p in ZoneSubnets(st.lib, st.firewall) ==> p in kernel
    ensures GuestNetworks(after) == [c] && !Covered(after)
  {
    var iface := IfaceSection(ip);
    IfaceFacts(iface, ip);
    GuestNetworkIs(st.lib, ip, c);
    hide IfaceSection, Opt, Fields, Prefix.Aligned, ConfiguredAll, ReadsAddress, Clear, ZoneSubnets, Overlaps, Find;
    assert GuestNetworks(after) == [c];
    forall p | p in ZoneSubnets(after.lib, after.firewall) ensures !Overlaps(p, c) {
      ZoneSubnetsAreRanges(after.lib, after.firewall, p);
      var s :| s in after.firewall && BoundRange(after.lib, s, p);
      ZoneSubnetsAreRanges(st.lib, st.firewall, p);
      InBounds(st.lib, s, p);
      ClearOfRanges(c, p, st.ifaces, kernel);
    }
  }

  lemma InBounds(lib: Library, s: Section, p: Net)
    requires BoundRange(lib, s, p) && !HasHazard(lib, s)
    ensures s.kind.Zone? && s.id != Guest && p.family == V4 && p.bits >= 8
  {
    hide Words;
    var v :| v in Words(s, Subnet) && !HasPrefix(v, "!") && PrefixOf(lib, v) == Some(p);
    assert !Hazard(lib, v);
  }

  /** What the firewall file holds afterwards stays out of the guests' way. */
  predicate Settled(st: State, s: Section) {
    var wan := UplinkZone(st);
    && !OpenToAll(s) && !TakesGuests(s) && !HasHazard(st.lib, s) && !NoNat(s, wan)
    && (Opt(s, Name) == wan ==> !HoldsHome(s, st.network))
    && !Reflects(s) && (OpensFromGuests(s, wan) ==> Skipped(s.id, RULES))
    && (s.kind.Zone? && s.id != Guest ==> s in st.firewall)
  }

  lemma OldIsSettled(st: State, s: Section)
    requires Clean(st) && s in st.firewall
    ensures Settled(st, s)
  {
    hide Opt, Words, OpenToAll, TakesGuests, HasHazard, NoNat, HoldsHome, SkipsGuests, NothingThere, OtherOnBridge, OnGuest, Uplink6Zone, UplinkZone, UplinkSection, OpensFromGuests, Reflects;
    NotOpening(st, s);
  }

  lemma NotOpening(st: State, s: Section)
    requires !GuestOpenings(st.firewall, UplinkZone(st), {}) && s in st.firewall
    ensures !Reflects(s) && !OpensFromGuests(s, UplinkZone(st))
  {
    hide OpensFromGuests, Reflects, UplinkZone;
    assert !Skipped(s.id, {});
  }

  lemma NewIsSettled(st: State, s: Section)
    requires UplinkZone(st) != GUEST && NewInFirewall(s, UplinkZone(st))
    ensures Settled(st, s)
  {
    NewIsHarmless(s, UplinkZone(st), st);
    hide Opt, Words, OpenToAll, TakesGuests, HasHazard, NoNat, UplinkZone, OpensFromGuests, Reflects, ZoneOptions, Written, RuleDone, NewInFirewall;
  }

  lemma AllSettled(st: State)
    requires Clean(st)
    ensures forall s :: s in st.firewall + NewFirewall(UplinkZone(st)) ==> Settled(st, s)
  {
    UplinkStays(st, []);
    NewMembers(UplinkZone(st));
    hide Settled, Clean, NewFirewall, UplinkZone, NewInFirewall;
    forall s | s in st.firewall + NewFirewall(UplinkZone(st)) ensures Settled(st, s) {
      if s in st.firewall {
        OldIsSettled(st, s);
      } else {
        NewIsSettled(st, s);
      }
    }
  }

  lemma RulesAgree(st: State)
    requires NothingThere(FilesOf(st))
    ensures RulesAsMade(st.firewall + NewFirewall(UplinkZone(st)), UplinkZone(st))
    ensures Find(st.firewall + NewFirewall(UplinkZone(st)), Guest) == Some(ZoneSection())
    ensures Find(st.firewall + NewFirewall(UplinkZone(st)), Own(Wan)) == Some(WanSection(UplinkZone(st)))
  {
    NothingIsFresh(FilesOf(st));
    hide NothingThere, NewFirewall, UplinkZone, ZoneSection, WanSection, RuleDone, Spec, ReadsAs, Find, Fresh;
    var wan := UplinkZone(st);
    NewFinds(st.firewall, wan, Guest);
    assert Fresh(st.firewall, Own(Wan));
    NewFinds(st.firewall, wan, Own(Wan));
    forall r | r in RULES
      ensures Find(st.firewall + NewFirewall(wan), Own(r)).Some?
        && ReadsAs(Spec(r, wan), Find(st.firewall + NewFirewall(wan), Own(r)).value)
    {
      assert Fresh(st.firewall, Own(r));
      NewFinds(st.firewall, wan, Own(r));
      RuleReads(r, wan);
    }
  }

  lemma WirelessAfter(st: State, q: Request, s: Section)
    requires Clean(st) && s in st.wireless + RadioSections(q.radios, q)
    ensures !Belongs(Stray, s)
    ensures Belongs(Owned, s) ==> Opt(s, Network) == GUEST && Opt(s, Isolate) == "1" && Opt(s, BridgeIsolate) == "1"
  {
    hide Opt, OnGuest, Written, RadioOptions;
    if s in st.wireless {
      assert !s.id.Own? by { FilesNothing(st, s); }
    } else {
      var rs := RadioSections(q.radios, q);
      var k :| 0 <= k < |rs| && rs[k] == s;
      RadioFacts(s, q.radios[k], q);
    }
  }

  lemma FilesNothing(st: State, s: Section)
    requires NothingThere(FilesOf(st)) && s in st.wireless
    ensures !s.id.Own?
  {
  }

  lemma NoZoneWithGuests(st: State)
    requires Clean(st)
    ensures ZoneWith(st.firewall, GUEST).None?
  {
    hide UplinkZone, Opt, OpenToAll, HasHazard, NoNat, HoldsHome, SkipsGuests, OtherOnBridge, OnGuest, GuestOpenings, Words, Uplink6Zone, UplinkSection;
    assert Fresh(st.firewall, Guest);
    assert forall s :: s in st.firewall ==> !TakesGuests(s);
  }

  lemma Uplink6After(a: State, st: State)
    requires Clean(st) && FirstDhcpv6(a.network) == FirstDhcpv6(st.network) && a.ifaces == st.ifaces
    requires a.firewall == st.firewall + NewFirewall(UplinkZone(st))
    ensures Uplink6(a) == Uplink6(st) && Uplink6Zone(a) == if Uplink6(st) == GUEST then GUEST else Uplink6Zone(st)
  {
    hide NewFirewall, UplinkZone, ZoneSection, ZoneWith, Opt, Words, Clean, FirstDhcpv6, FirstRoute6;
    var name := Uplink6(st);
    NoZoneWithGuests(st);
    ZoneWithInParts(st.firewall, NewFirewall(UplinkZone(st)), name);
    ZoneWithNew(UplinkZone(st), name);
    ZoneFacts(ZoneSection());
  }

  /** The shape read back: every access point is the panel's and isolated. */
  predicate AllApart(g: Shape) {
    (forall s :: s in g.owned ==> Opt(s, Network) == GUEST) && g.stray == []
    && (forall s :: s in g.ifaces ==> Opt(s, Isolate) == "1" && Opt(s, BridgeIsolate) == "1")
  }

  lemma ShapeAfter(a: State, st: State, q: Request)
    requires Clean(st) && a.wireless == st.wireless + RadioSections(q.radios, q) && Made(a.network)
    ensures a.Shape().ours && AllApart(a.Shape())
  {
    hide Clean, Made, Opt, RadioSections, OnGuest;
    forall s | s in a.wireless
      ensures !Belongs(Stray, s) && (Belongs(Owned, s) ==> Opt(s, Network) == GUEST && Opt(s, Isolate) == "1" && Opt(s, BridgeIsolate) == "1")
    {
      WirelessAfter(st, q, s);
    }
    NoneBelong(Stray, a.wireless);
    var g := a.Shape();
    forall s | s in g.ifaces ensures Opt(s, Isolate) == "1" && Opt(s, BridgeIsolate) == "1" {
      assert Belongs(Attached, s) && Belongs(Owned, s);
    }
  }

  lemma NoOpenings(st: State, firewall: seq<Section>)
    requires forall s :: s in firewall ==> Settled(st, s)
    ensures !GuestOpenings(firewall, UplinkZone(st), RULES)
    ensures forall s :: s in firewall ==> !TakesGuests(s) && !HasHazard(st.lib, s)
  {
    hide UplinkZone, Opt, HasHazard, TakesGuests, OpenToAll, NoNat, HoldsHome, Reflects, OpensFromGuests;
    assert forall s :: s in firewall ==> Settled(st, s);
  }

  /** No protection is found changed. */
  lemma NothingWeakened(a: State, st: State, q: Request)
    requires Clean(st) && UplinkZone(a) == UplinkZone(st) && !Covered(a) && a.lib == st.lib
    requires a.firewall == st.firewall + NewFirewall(UplinkZone(st)) && a.wireless == st.wireless + RadioSections(q.radios, q)
    requires Made(a.network) && forall s :: s in a.network ==> !OtherOnBridge(s) && !BridgeChanged(s)
    ensures a.Shape().ours && GuestWeakened(a).None?
  {
    hide Clean, UplinkZone, Covered, NewFirewall, ZoneSection, WanSection, RulesAsMade, Find, Opt, Made, OtherOnBridge, BridgeChanged, HasHazard, TakesGuests, Closed, RadioSections, State.Shape, GuestOpenings, Settled, NothingThere;
    AllSettled(st);
    NoOpenings(st, a.firewall);
    CleanIsEmpty(st);
    RulesAgree(st);
    ZoneFacts(ZoneSection());
    WanFacts(WanSection(UplinkZone(st)), UplinkZone(st));
    ShapeAfter(a, st, q);
  }

  lemma CleanIsEmpty(st: State)
    requires Clean(st)
    ensures NothingThere(FilesOf(st)) && forall s :: s in st.network ==> !OtherOnBridge(s)
  {
    hide UplinkZone, Opt, OpenToAll, HasHazard, NoNat, HoldsHome, SkipsGuests, OtherOnBridge, OnGuest, GuestOpenings, Words, Uplink6Zone, UplinkSection, NothingThere;
  }

  lemma HomeElsewhere(s: Section, network: seq<Section>, other: seq<Section>)
    requires LanDevice(network) == LanDevice(other)
    ensures HoldsHome(s, network) <==> HoldsHome(s, other)
  {
    hide LanDevice, BindsDevice;
  }

  /** The rest of what could block guests is as it was, but for an IPv6 uplink
      that bears the guests' own name. */
  lemma BlockedOnlyByName(a: State, st: State)
    requires Clean(st) && UplinkSection(a.firewall, a.ifaces) == UplinkSection(st.firewall, st.ifaces)
    requires forall s :: s in a.firewall ==> Settled(st, s)
    requires a.Shape().ours && GuestWeakened(a).None? && LanDevice(a.network) == LanDevice(st.network)
    requires Uplink6Zone(a) == (if Uplink6(st) == GUEST then GUEST else Uplink6Zone(st)) && UplinkZone(st) != GUEST
    requires forall s :: s in a.dhcp ==> !SkipsGuests(s)
    ensures GuestBlocker(a) == if Uplink6(st) == GUEST then Some(SplitUplink) else None
  {
    hide LanDevice, Opt, Words, UplinkSection, Uplink6Zone, Uplink6, SkipsGuests, State.Shape, GuestWeakened, OpenToAll, NoNat, HoldsHome, TakesGuests, HasHazard, GuestOpenings, NothingThere, OtherOnBridge, OnGuest, Reflects, OpensFromGuests;
    forall s | s in a.firewall && Opt(s, Name) == UplinkZone(st) ensures !HoldsHome(s, a.network) {
      HomeElsewhere(s, a.network, st.network);
    }
  }

  lemma DhcpServes(st: State, s: Section)
    requires Clean(st) && s in st.dhcp + [DhcpSection()]
    ensures !SkipsGuests(s)
  {
    hide UplinkZone, Opt, OpenToAll, HasHazard, NoNat, HoldsHome, OtherOnBridge, OnGuest, GuestOpenings, Words, Uplink6Zone, UplinkSection, NothingThere, Written;
  }

  /** What the writer makes has every protection as it should be, whatever is in
      the address, so long as no zone's range is found to cover it. */
  lemma UncoveredAgrees(st: State, ip: string, renumber: bool, q: Request)
    requires Ready(st) && !Covered(After(st, ip, renumber, q))
    ensures After(st, ip, renumber, q).Shape().ours && GuestWeakened(After(st, ip, renumber, q)).None?
    ensures GuestBlocker(After(st, ip, renumber, q)) == if Uplink6(st) == GUEST then Some(SplitUplink) else None
  {
    hide Ready, Clean, UplinkSection, NewFirewall, Renumbered, DevSection, IfaceSection, DhcpSection, RadioSections, State.Shape, GuestWeakened, GuestBlocker, Covered, Settled, OtherOnBridge, BridgeChanged, Made, LanDevice, FirstDhcpv6, Uplink6, Uplink6Zone, SkipsGuests, Fresh, NothingThere, AllAlike, Find, After;
    ReadyIsClean(st);
    CleanIsEmpty(st);
    NothingIsFresh(FilesOf(st));
    var a, wan := After(st, ip, renumber, q), UplinkZone(st);
    FirewallIs(st, ip, renumber, q);
    NetworkIs(st, ip, renumber, q);
    RenumberedAlike(st.network, renumber);
    NetworkAfter(st.network, Renumbered(st.network, renumber), DevSection(), IfaceSection(ip), ip);
    UplinkStays(st, NewFirewall(wan));
    AllSettled(st);
    NothingWeakened(a, st, q);
    Uplink6After(a, st);
    forall s | s in a.dhcp ensures !SkipsGuests(s) {
      DhcpServes(st, s);
    }
    BlockedOnlyByName(a, st);
  }

  /** Where a guest network could be made, the one the writer makes reads as
      the panel's own and as it should be, in every protection; and nothing
      blocks it, unless the IPv6 uplink is an interface called like the
      guests' own. */
  lemma WriterAndChecksAgree(st: State, c: Net, kernel: seq<Net>, ip: string, renumber: bool, q: Request)
    requires Ready(st)
    requires c.family == V4 && c.bits == 24 && c.Aligned() && Clear(c, st.ifaces, kernel) && ReadsAddress(st.lib, ip, c.addr + 1)
    requires forall p :: p in ZoneSubnets(st.lib, st.firewall) ==> p in kernel
    ensures After(st, ip, renumber, q).Shape().ours && GuestWeakened(After(st, ip, renumber, q)).None?
    ensures GuestNetworks(After(st, ip, renumber, q)) == [c]
    ensures GuestBlocker(After(st, ip, renumber, q)) == if Uplink6(st) == GUEST then Some(SplitUplink) else None
  {
    hide Ready, Clean, Clear, ReadsAddress, Prefix.Aligned, UplinkSection, NewFirewall, Renumbered, DevSection, IfaceSection, RadioSections, State.Shape, GuestWeakened, GuestBlocker, Covered, GuestNetworks, Settled, OtherOnBridge, BridgeChanged, Made, LanDevice, FirstDhcpv6, Uplink6, ZoneSubnets, Fresh, NothingThere, AllAlike, Find, After;
    ReadyIsClean(st);
    CleanIsEmpty(st);
    NothingIsFresh(FilesOf(st));
    var a := After(st, ip, renumber, q);
    FirewallIs(st, ip, renumber, q);
    NetworkIs(st, ip, renumber, q);
    RenumberedAlike(st.network, renumber);
    NetworkAfter(st.network, Renumbered(st.network, renumber), DevSection(), IfaceSection(ip), ip);
    AllSettled(st);
    SettledZones(st, a.firewall);
    NotCovered(st, a, ip, c, kernel);
    UncoveredAgrees(st, ip, renumber, q);
  }

  lemma SettledZones(st: State, firewall: seq<Section>)
    requires forall s :: s in firewall ==> Settled(st, s)
    ensures forall s :: s in firewall && s.kind.Zone? && s.id != Guest ==> s in st.firewall && !HasHazard(st.lib, s)
  {
    hide UplinkZone, Opt, HasHazard, TakesGuests, OpenToAll, NoNat, HoldsHome, Reflects, OpensFromGuests;
    assert forall s :: s in firewall ==> Settled(st, s);
  }

  // ---- Made, checked and kept ----

  lemma TwoIds(wan: string)
    ensures ZoneSection().id == Guest && WanSection(wan).id == Own(Wan)
  {
    hide Written, ZoneOptions, WanOptions;
  }

  lemma NewIsUnique(wan: string)
    ensures Unique(NewFirewall(wan))
    ensures forall s :: s in NewFirewall(wan) ==> s.id == Guest || (s.id.Own? && s.id.role in SECTIONS)
  {
    hide ZoneSection, WanSection, RuleOrder, RuleDone, RuleSections, Unique;
    TwoIds(wan);
    RulesInOrder();
    var rules := RuleSections(RuleOrder(), wan, true);
    forall i | 0 <= i < |rules| ensures rules[i].id == Own(RuleOrder()[i]) && RuleOrder()[i] in RULES {
      assert RuleOrder()[i] in RuleOrder();
      DoneIsNamed(RuleOrder()[i], wan);
    }
    UniqueIds(ZoneSection(), WanSection(wan), rules, RuleOrder());
  }

  lemma UniqueIds(z: Section, w: Section, rules: seq<Section>, roles: seq<Role>)
    requires z.id == Guest && w.id == Own(Wan) && |rules| == |roles| && DistinctRoles(roles)
    requires forall i :: 0 <= i < |rules| ==> rules[i].id == Own(roles[i]) && roles[i] != Wan
    ensures Unique([z, w] + rules)
  {
  }

  lemma UniqueParts(a: seq<Section>, b: seq<Section>)
    requires Unique(a) && Unique(b) && forall s :: s in b ==> Fresh(a, s.id)
    ensures Unique(a + b)
  {
    var c := a + b;
    forall i, j | 0 <= i < j < |c| ensures c[i].id != c[j].id {
      if i < |a| && j >= |a| {
        assert c[j] in b && c[i] in a;
      }
    }
  }

  lemma UniqueAfter(st: State)
    requires Clean(st) && Unique(st.firewall)
    ensures Unique(st.firewall + NewFirewall(UplinkZone(st)))
  {
    CleanIsEmpty(st);
    NothingIsFresh(FilesOf(st));
    NewIsUnique(UplinkZone(st));
    hide Clean, NewFirewall, UplinkZone, NothingThere, Unique, Fresh;
    UniqueParts(st.firewall, NewFirewall(UplinkZone(st)));
  }

  lemma {:induction false} AheadOfNew(firewall: seq<Section>, more: seq<Section>)
    requires Fresh(firewall, Guest) && more != [] && more[0].id == Guest
    ensures Ahead(firewall + more) == firewall
  {
    if firewall == [] {
      assert firewall + more == more;
    } else {
      assert firewall[0] in firewall && (firewall + more)[1..] == firewall[1..] + more;
      AheadOfNew(firewall[1..], more);
    }
  }

  /** All the zones there were stand before the guests' own. */
  lemma AheadAfter(st: State)
    requires Clean(st)
    ensures Ahead(st.firewall + NewFirewall(UplinkZone(st))) == st.firewall
  {
    CleanIsEmpty(st);
    NothingIsFresh(FilesOf(st));
    hide Clean, NewFirewall, UplinkZone, NothingThere, Fresh, Ahead, ZoneSection;
    ZoneIsFirst(UplinkZone(st));
    TwoIds(UplinkZone(st));
    AheadOfNew(st.firewall, NewFirewall(UplinkZone(st)));
  }

  /** Guests of the network made are put in their zone exactly when no zone that
      was there holds packets by a negation or by their address alone, and those
      that use an address assigned to them exactly when none does by a negation:
      what a look at the file before making it tells. */
  lemma MadeGuestsInZone(st: State, c: Net, kernel: seq<Net>, ip: string, renumber: bool, q: Request)
    requires Ready(st) && Uplink6(st) != GUEST
    requires c.family == V4 && c.bits == 24 && c.Aligned() && Clear(c, st.ifaces, kernel) && ReadsAddress(st.lib, ip, c.addr + 1)
    requires forall p :: p in ZoneSubnets(st.lib, st.firewall) ==> p in kernel
    ensures var a := After(st, ip, renumber, q);
      && ((forall p :: Sensible(p) ==> SourceZone(a.firewall, a, p) == Find(a.firewall, Guest)) <==> NoneHolds(st.firewall))
      && ((forall p :: FromGuest(a, p) ==> SourceZone(a.firewall, a, p) == Find(a.firewall, Guest)) <==> NoneByNegation(st.firewall))
  {
    hide Ready, Clear, ReadsAddress, Prefix.Aligned, UplinkZone, UplinkSection, NewFirewall, State.Shape, GuestBlocker, GuestWeakened, GuestNetworks, ZoneSubnets, Uplink6, After, Kept, FromGuest, Sensible, SourceZone, NoneHolds, NoneHoldsAssigned, NoneByNegation, Ahead;
    var a := After(st, ip, renumber, q);
    MadeIsKept(st, c, kernel, ip, renumber, q);
    OneNetwork(a);
    InGuestZone(a);
    AssignedInZone(a);
  }

  lemma MadeIsKept(st: State, c: Net, kernel: seq<Net>, ip: string, renumber: bool, q: Request)
    requires Ready(st) && Uplink6(st) != GUEST
    requires c.family == V4 && c.bits == 24 && c.Aligned() && Clear(c, st.ifaces, kernel) && ReadsAddress(st.lib, ip, c.addr + 1)
    requires forall p :: p in ZoneSubnets(st.lib, st.firewall) ==> p in kernel
    ensures var a := After(st, ip, renumber, q);
      Kept(a) && GuestBlocker(a).None? && a.Shape().ours && Ahead(a.firewall) == st.firewall && GuestNetworks(a) == [c]
      && a.lib == st.lib && UplinkZone(a) == UplinkZone(st) && (Unique(st.firewall) ==> Unique(a.firewall))
  {
    hide Ready, Clean, Clear, ReadsAddress, Prefix.Aligned, UplinkZone, UplinkSection, NewFirewall, State.Shape, GuestBlocker, GuestWeakened, GuestNetworks, ZoneSubnets, Uplink6, After, Kept, Ahead, Unique;
    var a := After(st, ip, renumber, q);
    WriterAndChecksAgree(st, c, kernel, ip, renumber, q);
    ReadyIsClean(st);
    FirewallIs(st, ip, renumber, q);
    NetworkIs(st, ip, renumber, q);
    UplinkStays(st, NewFirewall(UplinkZone(st)));
    SameUplink(a, st);
    if Unique(st.firewall) {
      UniqueAfter(st);
    }
    AheadAfter(st);
    ChecksKeep(a);
  }

  /** Looking at the file before: no zone takes the packet, or none holds by a
      negation and the packet is from an assigned address. */
  predicate Untaken(lib: Library, firewall: seq<Section>, c: Net, p: Packet) {
    NoneTakes(lib, firewall, p) || (NoneByNegation(firewall) && (p.v6 || (c.family == V4 && c.Contains(p.source))))
  }

  lemma MadeTakesNone(a: State, c: Net, p: Packet)
    requires Kept(a) && GuestNetworks(a) == [c] && Sensible(p) && Untaken(a.lib, Ahead(a.firewall), c, p)
    ensures NoneTakes(a.lib, Ahead(a.firewall), p)
  {
    hide Kept, GuestNetworks, Sensible, Ahead, NoneTakes, NoneByNegation, NoneHoldsAssigned, Prefix.Contains;
    if !NoneTakes(a.lib, Ahead(a.firewall), p) {
      assert c in GuestNetworks(a);
      assert FromGuest(a, p);
      OneNetwork(a);
      AssignedTakesNone(a, p);
    }
  }

  /** From making it to using it: once the new files are in force, and while
      they are what the router runs, every packet of a guest that is accepted
      asks for one of the four services or leaves for a public address, and
      none reaches a zone the home network is in. */
  lemma MadeGuestsAreKept(st: State, c: Net, kernel: seq<Net>, ip: string, renumber: bool, q: Request, p: Packet)
    requires Ready(st) && Unique(st.firewall) && UplinkZone(st) != "*" && Uplink6(st) != GUEST
    requires c.family == V4 && c.bits == 24 && c.Aligned() && Clear(c, st.ifaces, kernel) && ReadsAddress(st.lib, ip, c.addr + 1)
    requires forall p :: p in ZoneSubnets(st.lib, st.firewall) ==> p in kernel
    requires Sensible(p) && Untaken(st.lib, st.firewall, c, p)
    ensures Accepted(After(st, ip, renumber, q), p) ==> Service(p) || (p.to == UplinkZone(st) && !Private(p))
    ensures Accepted(After(st, ip, renumber, q), p) && p.to != "" ==>
      forall z :: z in After(st, ip, renumber, q).firewall && Opt(z, Name) == p.to ==> !HoldsHome(z, After(st, ip, renumber, q).network)
  {
    hide Ready, Clear, ReadsAddress, Prefix.Aligned, Prefix.Contains, Sensible, Service, Private, Accepted, UplinkZone, State.Shape, GuestBlocker, GuestNetworks, NoneTakes, Untaken, Unique, HoldsHome, ZoneSubnets, Uplink6, After, Opt, Kept, Ahead;
    var a := After(st, ip, renumber, q);
    MadeIsKept(st, c, kernel, ip, renumber, q);
    MadeTakesNone(a, c, p);
    GuestsAreKept(a, p);
    if Accepted(a, p) && p.to != "" {
      forall z | z in a.firewall && Opt(z, Name) == p.to ensures !HoldsHome(z, a.network) {
        NeverHome(a, p, z);
      }
    }
  }

  lemma SameUplink(a: State, st: State)
    requires UplinkSection(a.firewall, a.ifaces) == UplinkSection(st.firewall, st.ifaces)
    ensures UplinkZone(a) == UplinkZone(st)
  {
    hide UplinkSection;
  }
}
