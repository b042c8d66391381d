/** Whether guests are, or could be, kept from the home network
    (internal/adapters/openwrt/wifi_guest.go). Each check answers why not;
    which section it names for the reader is left out. */
module GuestChecks {
  import opened Outcomes
  import opened Text
  import opened Prefixes
  import opened UciSections
  import opened GuestRecipe

  type Net = p: Prefix | p.Valid() witness Prefix(V4, 0, 0)
  type Bits = n: nat | n <= 32

  /** How the address library reads a word: as a network, as one address, as a
      netmask. */
  datatype Library = Library(prefix: string -> Option<Net>, addr: string -> Option<Net>, mask: string -> Option<Bits>)

  /** A live interface: whether it has default routes, its IPv4 addresses and
      routes, and the lengths of the IPv6 prefixes it was handed. */
  datatype Live = Live(name: string, route4: bool, route6: bool, addrs: seq<Net>, routes: seq<Net>, delegated: seq<int>)

  /** What a guest edit reads at once. */
  datatype State = State(network: seq<Section>, firewall: seq<Section>, wireless: seq<Section>, dhcp: seq<Section>,
                         ifaces: seq<Live>, lib: Library)
  {
    function Shape(): Shape { GuestShape(network, firewall, wireless, dhcp) }
  }

  // ---- The uplink ----

  function Candidates(ifaces: seq<Live>): seq<string> {
    if ifaces == [] then []
    else (if ifaces[0].name in ["loopback", "lo"] || !(ifaces[0].route4 || ifaces[0].route6) then [] else [ifaces[0].name])
         + Candidates(ifaces[1..])
  }

  predicate Holds(s: string, part: string) {
    HasPrefix(s, part) || (s != "" && Holds(s[1..], part))
  }

  function NamedWan(names: seq<string>): Option<string> {
    if names == [] then None else if EqualFold(names[0], "wan") then Some(names[0]) else NamedWan(names[1..])
  }

  function WithWan(names: seq<string>): seq<string> {
    if names == [] then []
    else (if Holds(ToLower(names[0]), "wan") then [names[0]] else []) + WithWan(names[1..])
  }

  /** One interface with a default route; else the one called wan, else the
      only one with wan in its name, else the first. */
  function PickUplink(ifaces: seq<Live>): string {
    var names := Candidates(ifaces);
    if names == [] then ""
    else if |names| == 1 then names[0]
    else if NamedWan(names).Some? then NamedWan(names).value
    else if |WithWan(names)| == 1 then WithWan(names)[0]
    else names[0]
  }

  /** The first zone with a network in it. */
  function ZoneWith(firewall: seq<Section>, net: string): (r: Option<Section>)
    ensures r.Some? ==> r.value in firewall && r.value.kind.Zone? && net in Words(r.value, Network)
    ensures r.None? ==> forall s :: s in firewall && s.kind.Zone? ==> net !in Words(s, Network)
  {
    if firewall == [] then None
    else if firewall[0].kind.Zone? && net in Words(firewall[0], Network) then Some(firewall[0])
    else ZoneWith(firewall[1..], net)
  }

  function ZoneNamed(firewall: seq<Section>, name: string): (r: Option<Section>)
    ensures r.Some? ==> r.value in firewall && r.value.kind.Zone? && Opt(r.value, Name) == name
    ensures r.None? ==> forall s :: s in firewall && s.kind.Zone? ==> Opt(s, Name) != name
  {
    if firewall == [] then None
    else if firewall[0].kind.Zone? && Opt(firewall[0], Name) == name then Some(firewall[0])
    else ZoneNamed(firewall[1..], name)
  }

  /** The section of the zone the uplink is in. */
  function UplinkSection(firewall: seq<Section>, ifaces: seq<Live>): Option<Section> {
    var uplink := PickUplink(ifaces);
    if uplink != "" then ZoneWith(firewall, uplink) else ZoneNamed(firewall, "wan")
  }

  /** Its name, empty when there is none. */
  function UplinkZone(st: State): string {
    var s := UplinkSection(st.firewall, st.ifaces);
    if s.Some? then Opt(s.value, Name) else ""
  }

  function FirstRoute6(ifaces: seq<Live>): string {
    if ifaces == [] then "" else if ifaces[0].route6 then ifaces[0].name else FirstRoute6(ifaces[1..])
  }

  function IdWord(id: Id): string {
    match id
    case Lan => LAN
    case Guest => GUEST
    case OtherId(w) => w
    case Own(r) => "guest_" + RoleWord(r)
  }

  function RoleWord(r: Role): string {
    match r
    case Dev => "dev"
    case Wan => "wan"
    case Dhcp => "dhcp"
    case Dns => "dns"
    case Icmpv6 => "icmpv6"
    case Dhcpv6 => "dhcpv6"
    case NoPrivate4 => "no_private4"
    case NoPrivate6 => "no_private6"
    case Radio(w) => w
  }

  function FirstDhcpv6(network: seq<Section>): string {
    if network == [] then ""
    else if network[0].kind.Interface? && Opt(network[0], Proto) == "dhcpv6" then IdWord(network[0].id)
    else FirstDhcpv6(network[1..])
  }

  /** The IPv6 uplink: the interface with an IPv6 default route, else the first
      one configured as a DHCPv6 client. */
  function Uplink6(st: State): string {
    var name := FirstRoute6(st.ifaces);
    if name != "" then name else FirstDhcpv6(st.network)
  }

  function Uplink6Zone(st: State): string {
    var name := Uplink6(st);
    if name == "" then ""
    else var s := ZoneWith(st.firewall, name); if s.Some? then Opt(s.value, Name) else ""
  }

  // ---- Zones ----

  /** A device word names a device, as such or by a wildcard at its end. */
  predicate Names(word: string, dev: string) {
    var pat := TrimSuffix(TrimSuffix(word, "*"), "+");
    word == dev || (pat != word && HasPrefix(dev, pat))
  }

  predicate BindsDevice(zone: Section, dev: string) {
    exists d :: d in Words(zone, DeviceKey) && Names(TrimPrefix(d, "!"), dev)
  }

  /** Another zone than the guests' own holds their interface or bridge. */
  predicate TakesGuests(s: Section) {
    s.kind.Zone? && s.id != Guest && (GUEST in Words(s, Network) || BindsDevice(s, BRIDGE))
  }

  function LanDevice(network: seq<Section>): string {
    var lan := Find(network, Lan);
    if lan.Some? && Opt(lan.value, DeviceKey) != "" then Opt(lan.value, DeviceKey) else "br-lan"
  }

  /** The zone section holds the home network. */
  predicate HoldsHome(s: Section, network: seq<Section>) {
    s.kind.Zone? && (LAN in Words(s, Network) || BindsDevice(s, LanDevice(network)))
  }

  function PrefixOf(lib: Library, v: string): Option<Net> {
    if lib.prefix(v).Some? then lib.prefix(v) else lib.addr(v)
  }

  /** A range the guest subnet cannot be chosen clear of. */
  predicate Hazard(lib: Library, v: string) {
    HasPrefix(v, "!")
    || (var p := PrefixOf(lib, v); p.None? || p.value.family != V4 || p.value.bits < 8)
  }

  predicate HasHazard(lib: Library, s: Section) {
    s.kind.Zone? && s.id != Guest && exists v :: v in Words(s, Subnet) && Hazard(lib, v)
  }

  /** A range another zone is bound by. */
  predicate BoundRange(lib: Library, s: Section, p: Net) {
    s.kind.Zone? && s.id != Guest
    && exists v :: v in Words(s, Subnet) && !HasPrefix(v, "!") && PrefixOf(lib, v) == Some(p)
  }

  function RangesOfWords(lib: Library, words: seq<string>): (r: seq<Net>)
    ensures forall p :: p in r <==> exists v :: v in words && !HasPrefix(v, "!") && PrefixOf(lib, v) == Some(p)
  {
    if words == [] then []
    else
      var p := PrefixOf(lib, words[0]);
      (if HasPrefix(words[0], "!") || p.None? then [] else [p.value]) + RangesOfWords(lib, words[1..])
  }

  function RangesOf(lib: Library, s: Section): (r: seq<Net>)
    ensures forall p :: p in r <==> BoundRange(lib, s, p)
  {
    if s.kind.Zone? && s.id != Guest then RangesOfWords(lib, Words(s, Subnet)) else []
  }

  /** The ranges of all zones but the guests' own. */
  function ZoneSubnets(lib: Library, firewall: seq<Section>): seq<Net> {
    if firewall == [] then [] else RangesOf(lib, firewall[0]) + ZoneSubnets(lib, firewall[1..])
  }

  lemma FirstSubnets(lib: Library, firewall: seq<Section>)
    requires firewall != []
    ensures ZoneSubnets(lib, firewall) == RangesOf(lib, firewall[0]) + ZoneSubnets(lib, firewall[1..])
  {
    hide BoundRange, RangesOf;
  }

  lemma {:induction false} ZoneSubnetsAreRanges(lib: Library, firewall: seq<Section>, p: Net)
    ensures p in ZoneSubnets(lib, firewall) <==> exists s :: s in firewall && BoundRange(lib, s, p)
  {
    hide BoundRange, RangesOf;
    if firewall != [] {
      ZoneSubnetsAreRanges(lib, firewall[1..], p);
      assert forall s :: s in firewall <==> s == firewall[0] || s in firewall[1..];
      hide ZoneSubnets;
      assert ZoneSubnets(lib, firewall) == RangesOf(lib, firewall[0]) + ZoneSubnets(lib, firewall[1..]) by { FirstSubnets(lib, firewall); }
    }
  }

  // ---- Networks ----

  function Configured(lib: Library, addr: string, mask: string): seq<Net> {
    if lib.prefix(addr).Some? then [lib.prefix(addr).value.Masked()]
    else
      var a := lib.addr(addr);
      if a.None? || a.value.family != V4 then []
      else
        var bits: nat := if lib.mask(mask).Some? then lib.mask(mask).value else 32;
        var p := Prefix(V4, a.value.addr, bits);
        [p.Masked()]
  }

  function ConfiguredAll(lib: Library, addrs: seq<string>, mask: string): seq<Net> {
    if addrs == [] then [] else Configured(lib, addrs[0], mask) + ConfiguredAll(lib, addrs[1..], mask)
  }

  /** The networks the configuration holds, up or not: static addresses and
      static routes. */
  function ConfiguredPrefixes(lib: Library, network: seq<Section>): seq<Net> {
    if network == [] then []
    else
      var s := network[0];
      (if s.kind.Interface? then ConfiguredAll(lib, Words(s, IpAddr), Opt(s, Netmask))
       else if s.kind.Route? then Configured(lib, Opt(s, RouteTarget), Opt(s, Netmask))
       else [])
      + ConfiguredPrefixes(lib, network[1..])
  }

  /** Two networks have an address in common. */
  predicate Overlaps(p: Net, q: Net) {
    p.family == q.family && (p.Masked().Contains(q.Masked().addr) || q.Masked().Contains(p.Masked().addr))
  }

  const MASK24 := "255.255.255.0"

  /** The networks of the guests' own interface. */
  function GuestNetworks(st: State): seq<Net> {
    var iface := Find(st.network, Guest);
    if iface.None? then []
    else
      var mask := Opt(iface.value, Netmask);
      ConfiguredAll(st.lib, Words(iface.value, IpAddr), if mask == "" then MASK24 else mask)
  }

  // ---- The checks ----

  predicate Closed(v: string) { EqualFold(v, "REJECT") || EqualFold(v, "DROP") }

  predicate Accepting(t: string) { t == "" || EqualFold(t, "ACCEPT") }

  predicate Skipped(id: Id, skip: set<Role>) { id.Own? && id.role in skip }

  /** A section lets the guests' zone somewhere. */
  predicate OpensFromGuests(s: Section, wan: string) {
    Opt(s, Src) == GUEST && Opt(s, Enabled) != "0"
    && ((s.kind.Rule? && Accepting(Opt(s, Target))) || s.kind.Redirect? || (s.kind.Forwarding? && Opt(s, Dest) != wan))
  }

  /** A port forward reflects into the guests' zone. */
  predicate Reflects(s: Section) {
    s.kind.Redirect? && Opt(s, Enabled) != "0"
    && ((Opt(s, Reflection) != "0" && GUEST in Words(s, ReflectionZone)) || Opt(s, Dest) == GUEST)
  }

  predicate GuestOpenings(firewall: seq<Section>, wan: string, skip: set<Role>) {
    exists s :: s in firewall && ((!Skipped(s.id, skip) && OpensFromGuests(s, wan)) || Reflects(s))
  }

  /** From every zone: these run before the guests' own. */
  predicate OpenToAll(s: Section) {
    Opt(s, Src) == "*" && Opt(s, Enabled) != "0"
    && ((s.kind.Rule? && Accepting(Opt(s, Target))) || s.kind.Forwarding? || s.kind.Redirect?)
  }

  predicate SkipsGuests(s: Section) {
    s.kind.Dnsmasq?
    && ((Words(s, InterfaceKey) != [] && GUEST !in Words(s, InterfaceKey) && BRIDGE !in Words(s, InterfaceKey))
        || GUEST in Words(s, NotInterface) || BRIDGE in Words(s, NotInterface))
  }

  predicate NoNat(s: Section, zone: string) {
    s.kind.Zone? && Opt(s, Name) == zone && (Opt(s, Masq) != "1" || Opt(s, MasqSrc) != "" || Opt(s, MasqDest) != "")
  }

  predicate BridgeKeeps(k: Key, v: string) {
    (k == Name && v == BRIDGE) || (k == Type && v == "bridge") || (k == BridgeEmpty && v == "1")
  }

  predicate BridgeChanged(s: Section) {
    s.id == Own(Dev) && exists k :: k in s.opts && !BridgeKeeps(k, s.opts[k])
  }

  const ZONE_KEYS: set<Key> := {Name, Network, Input, Output, Forward}

  datatype Weakness = ZoneMissing | InputOpen | ForwardOpen | ZoneMoved | ZoneOption | BridgeOption | BridgeShared
                    | SubnetHazard | SubnetCovered | NoForwarding | ForwardingElsewhere | GuestsTaken | RuleChanged
                    | Opening | IfaceMoved | StrayIface | NotIsolated

  predicate RulesAsMade(firewall: seq<Section>, wan: string) {
    forall r :: r in RULES ==>
      Find(firewall, Own(r)).Some? && ReadsAs(Spec(r, wan), Find(firewall, Own(r)).value)
  }

  predicate Covered(st: State) {
    var g := GuestNetworks(st);
    |g| == 1 && exists p :: p in ZoneSubnets(st.lib, st.firewall) && Overlaps(p, g[0])
  }

  /** The first protection that is no longer as made, if any. */
  function GuestWeakened(st: State): Option<Weakness> {
    var found, wan := Find(st.firewall, Guest), UplinkZone(st);
    if found.None? || !found.value.kind.Zone? then Some(ZoneMissing)
    else
      var zone := found.value;
      if !Closed(Opt(zone, Input)) then Some(InputOpen)
      else if !Closed(Opt(zone, Forward)) then Some(ForwardOpen)
      else if Opt(zone, Name) != GUEST || Opt(zone, Network) != GUEST then Some(ZoneMoved)
      else if !(zone.opts.Keys <= ZONE_KEYS) then Some(ZoneOption)
      else if exists s :: s in st.network && BridgeChanged(s) then Some(BridgeOption)
      else if exists s :: s in st.network && OtherOnBridge(s) then Some(BridgeShared)
      else if exists s :: s in st.firewall && HasHazard(st.lib, s) then Some(SubnetHazard)
      else if Covered(st) then Some(SubnetCovered)
      else
        var fwd := Find(st.firewall, Own(Wan));
        if fwd.None? || !fwd.value.kind.Forwarding? || Opt(fwd.value, Src) != GUEST || Opt(fwd.value, Enabled) == "0" then Some(NoForwarding)
        else if Opt(fwd.value, Dest) != wan then Some(ForwardingElsewhere)
        else if exists s :: s in st.firewall && TakesGuests(s) then Some(GuestsTaken)
        else if !RulesAsMade(st.firewall, wan) then Some(RuleChanged)
        else if GuestOpenings(st.firewall, wan, RULES) then Some(Opening)
        else if exists s :: s in st.Shape().owned && Opt(s, Network) != GUEST then Some(IfaceMoved)
        else if st.Shape().stray != [] then Some(StrayIface)
        else if exists s :: s in st.Shape().ifaces && (Opt(s, Isolate) != "1" || Opt(s, BridgeIsolate) != "1") then Some(NotIsolated)
        else None
  }

  datatype Blocked = NoUplink | SharedZone | NoNAT | SplitUplink | OpenRule | NoDHCP | Weakened(what: Weakness) | GuestRule

  /** Why guests could not be kept from the home network, if so. */
  function GuestBlocker(st: State): Option<Blocked> {
    var zone := UplinkZone(st);
    if zone == "" then Some(NoUplink)
    else if LAN in Words(UplinkSection(st.firewall, st.ifaces).value, Network)
            || exists s :: s in st.firewall && Opt(s, Name) == zone && HoldsHome(s, st.network) then Some(SharedZone)
    else if exists s :: s in st.firewall && NoNat(s, zone) then Some(NoNAT)
    else if Uplink6Zone(st) != "" && Uplink6Zone(st) != zone then Some(SplitUplink)
    else if exists s :: s in st.firewall && OpenToAll(s) then Some(OpenRule)
    else if exists s :: s in st.dhcp && SkipsGuests(s) then Some(NoDHCP)
    else if st.Shape().ours then
      var what := GuestWeakened(st);
      if what.Some? then Some(Weakened(what.value)) else None
    else if GuestOpenings(st.firewall, zone, {}) then Some(GuestRule)
    else if exists s :: s in st.firewall && TakesGuests(s) then Some(GuestRule)
    else if exists s :: s in st.firewall && HasHazard(st.lib, s) then Some(GuestRule)
    else None
  }
}
