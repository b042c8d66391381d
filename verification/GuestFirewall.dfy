/** What the firewall does with a guest's packet, and that a guest network the
    checks find nothing against keeps guests to the internet
    (internal/adapters/openwrt/wifi_guest.go). The firewall puts a packet into
    the first zone that holds it, then asks the port forwards, the rules from
    every zone, the zone's rules, the forwardings and the zone's policy; the
    first that decides, decides. */
module GuestFirewall {
  import opened Outcomes
  import opened Text
  import opened Prefixes
  import opened UciSections
  import opened GuestRecipe
  import opened GuestChecks
  import opened PrivateRanges

  datatype Transport = Tcp(port: nat) | Udp(port: nat) | Icmp(message: string) | Other

  /** A packet that came in by the guests' bridge: to the router when `to` is
      empty, else forwarded into that zone. `holds` are the conditions, by
      option and value, that hold of it, and `meets` the sections whose other
      conditions it meets; any sets that agree with the packet on the recipe's
      own words. */
  datatype Packet = Packet(v6: bool, source: nat, to: string, dest: nat, transport: Transport,
                           holds: set<(Key, string)>, meets: set<Id>)

  predicate PortIn(t: Transport, first: nat, last: nat) {
    (t.Tcp? || t.Udp?) && first <= t.port <= last
  }

  predicate Private(p: Packet) { if p.v6 then IsPrivate6(p.dest) else IsPrivate4(p.dest) }

  /** The recipe's words mean what they say; a list holds when one of its words
      does. */
  predicate Sensible(p: Packet) {
    && ((Family, "ipv4") in p.holds <==> !p.v6) && ((Family, "ipv6") in p.holds <==> p.v6)
    && (Proto, "all") in p.holds
    && ((Proto, "udp") in p.holds <==> p.transport.Udp?)
    && ((Proto, "tcp udp") in p.holds <==> p.transport.Tcp? || p.transport.Udp?)
    && ((Proto, "icmp") in p.holds <==> p.transport.Icmp?)
    && ((DestPort, "67-68") in p.holds <==> PortIn(p.transport, 67, 68))
    && ((DestPort, "53") in p.holds <==> PortIn(p.transport, 53, 53))
    && ((DestPort, "547") in p.holds <==> PortIn(p.transport, 547, 547))
    && ((IcmpType, IcmpTypes()) in p.holds <==> p.transport.Icmp? && p.transport.message in Fields(IcmpTypes()))
    && ((DestIp, Private4()) in p.holds <==> ListHolds(Private4(), Of(p), p.dest))
    && ((DestIp, Private6()) in p.holds <==> ListHolds(Private6(), Of(p), p.dest))
  }

  function Of(p: Packet): Prefixes.Family { if p.v6 then V6 else V4 }

  /** Neighbour discovery. */
  predicate Discovery(message: string) {
    message == "router-solicitation" || message == "neighbour-solicitation" || message == "neighbour-advertisement"
  }

  /** The same with what the lists come to. */
  predicate Understood(p: Packet) {
    && ((Family, "ipv4") in p.holds <==> !p.v6) && ((Family, "ipv6") in p.holds <==> p.v6)
    && (Proto, "all") in p.holds
    && ((Proto, "udp") in p.holds <==> p.transport.Udp?)
    && ((Proto, "tcp udp") in p.holds <==> p.transport.Tcp? || p.transport.Udp?)
    && ((Proto, "icmp") in p.holds <==> p.transport.Icmp?)
    && ((DestPort, "67-68") in p.holds <==> PortIn(p.transport, 67, 68))
    && ((DestPort, "53") in p.holds <==> PortIn(p.transport, 53, 53))
    && ((DestPort, "547") in p.holds <==> PortIn(p.transport, 547, 547))
    && ((IcmpType, IcmpTypes()) in p.holds <==> p.transport.Icmp? && Discovery(p.transport.message))
    && ((DestIp, Private4()) in p.holds <==> !p.v6 && IsPrivate4(p.dest))
    && ((DestIp, Private6()) in p.holds <==> p.v6 && IsPrivate6(p.dest))
  }

  /** The recipe refuses exactly the private destinations, and lets through
      exactly neighbour discovery. */
  lemma Listed(p: Packet)
    requires Sensible(p)
    ensures Understood(p)
  {
    hide ListHolds, IsPrivate4, IsPrivate6, Fields, Private4, Private6, IcmpTypes;
    ListedIsPrivate4(Of(p), p.dest);
    ListedIsPrivate6(Of(p), p.dest);
    if p.transport.Icmp? {
      ListedMessages(p.transport.message);
    }
  }

  // ---- The zone a packet comes from ----

  /** A network word of a zone names an interface on the guests' bridge. */
  predicate OnBridge(network: seq<Section>, word: string) {
    exists s :: s in network && s.kind.Interface? && IdWord(s.id) == word
      && (Opt(s, DeviceKey) == BRIDGE || BRIDGE in Words(s, Ifname))
  }

  /** A negated word names everything else. */
  predicate NetworkHolds(network: seq<Section>, word: string) {
    if HasPrefix(word, "!") then !OnBridge(network, word[1..]) else OnBridge(network, word)
  }

  predicate DeviceHolds(word: string) {
    if HasPrefix(word, "!") then !Names(word[1..], BRIDGE) else Names(word, BRIDGE)
  }

  /** One of the zone's networks or devices is the guests' bridge. */
  predicate Bound(z: Section, network: seq<Section>) {
    || (exists w :: w in Words(z, Network) && NetworkHolds(network, w))
    || (exists w :: w in Words(z, DeviceKey) && DeviceHolds(w))
  }

  predicate Unbound(z: Section) { Words(z, Network) == [] && Words(z, DeviceKey) == [] }

  /** The source is in a range of the zone; a negated range is everything else. */
  predicate RangeHolds(lib: Library, v: string, p: Packet) {
    var w := TrimPrefix(v, "!");
    var r := PrefixOf(lib, w);
    if r.None? then (Subnet, v) in p.holds
    else
      var within := r.value.family == (if p.v6 then V6 else V4) && r.value.Contains(p.source);
      if HasPrefix(v, "!") then !within else within
  }

  predicate InZone(z: Section, st: State, p: Packet) {
    && z.kind.Zone?
    && (if Unbound(z) then Words(z, Subnet) != [] else Bound(z, st.network))
    && (Words(z, Subnet) == [] || exists v :: v in Words(z, Subnet) && RangeHolds(st.lib, v, p))
    && (z.opts.Keys <= ZONE_KEYS + {DeviceKey, Subnet} || z.id in p.meets)
  }

  function SourceZone(firewall: seq<Section>, st: State, p: Packet): (r: Option<Section>)
    ensures r.Some? ==> r.value in firewall && InZone(r.value, st, p)
    ensures r.None? ==> forall s :: s in firewall ==> !InZone(s, st, p)
  {
    if firewall == [] then None
    else if InZone(firewall[0], st, p) then Some(firewall[0])
    else SourceZone(firewall[1..], st, p)
  }

  // ---- The decision ----

  /** Options of a rule that say where it stands rather than what it asks. */
  const PLACE: set<Key> := {Name, Enabled, Src, Dest, Target}

  predicate DestHolds(dest: string, to: string) { dest == to || (dest == "*" && to != "") }

  predicate MatchesRule(s: Section, src: string, p: Packet) {
    && s.kind.Rule? && Opt(s, Enabled) != "0" && Opt(s, Src) == src && DestHolds(Opt(s, Dest), p.to)
    && (forall k :: k in s.opts.Keys - PLACE ==> (k, s.opts[k]) in p.holds)
    && (Proto in s.opts || (Proto, "") in p.holds)
  }

  /** A rule that matches and decides: it accepts or refuses. */
  predicate Decides(s: Section, src: string, p: Packet) {
    MatchesRule(s, src, p) && (Accepting(Opt(s, Target)) || Closed(Opt(s, Target)))
  }

  /** What the first deciding rule says. */
  function FirstRule(firewall: seq<Section>, src: string, p: Packet): (r: Option<bool>)
    ensures r.Some? && r.value ==> exists s :: s in firewall && Decides(s, src, p) && Accepting(Opt(s, Target))
    ensures r.Some? && !r.value ==> exists s :: s in firewall && Decides(s, src, p) && !Accepting(Opt(s, Target))
    ensures r.None? ==> forall s :: s in firewall ==> !Decides(s, src, p)
  {
    if firewall == [] then None
    else if Decides(firewall[0], src, p) then Some(Accepting(Opt(firewall[0], Target)))
    else FirstRule(firewall[1..], src, p)
  }

  /** A port forward takes the packet. */
  predicate Redirected(s: Section, zone: string, p: Packet) {
    s.kind.Redirect? && Opt(s, Enabled) != "0" && s.id in p.meets
    && (Opt(s, Src) == zone || Opt(s, Src) == "*"
        || (Opt(s, Reflection) != "0"
            && if Words(s, ReflectionZone) == [] then Opt(s, Dest) == zone else zone in Words(s, ReflectionZone)))
  }

  predicate Forwards(s: Section, zone: string, p: Packet) {
    s.kind.Forwarding? && Opt(s, Enabled) != "0" && p.to != ""
    && (Opt(s, Src) == zone || Opt(s, Src) == "*") && DestHolds(Opt(s, Dest), p.to)
    && (s.opts.Keys <= {Name, Enabled, Src, Dest} || s.id in p.meets)
  }

  predicate Accepted(st: State, p: Packet) {
    var z := SourceZone(st.firewall, st, p);
    z.Some?
    && (var zone := Opt(z.value, Name);
        if exists s :: s in st.firewall && Redirected(s, zone, p) then true
        else if FirstRule(st.firewall, "*", p).Some? then FirstRule(st.firewall, "*", p).value
        else if FirstRule(st.firewall, zone, p).Some? then FirstRule(st.firewall, zone, p).value
        else if exists s :: s in st.firewall && Forwards(s, zone, p) then true
        else !Closed(if p.to == "" then Opt(z.value, Input) else Opt(z.value, Forward)))
  }

  /** A guest's packet from an address that was assigned: an IPv4 source is of one
      of the guests' networks. A guest may use any other. */
  predicate FromGuest(st: State, p: Packet) {
    Sensible(p) && (!p.v6 ==> exists g :: g in GuestNetworks(st) && g.family == V4 && g.Contains(p.source))
  }

  // ---- What stands before the guests' zone ----

  const NOT_GUEST := "!guest"

  /** The zone names what it holds by naming what it does not, and what it does
      not is not the guests' own interface. */
  predicate ByNegation(z: Section) {
    || (exists w :: w in Words(z, Network) && HasPrefix(w, "!") && w != NOT_GUEST)
    || (exists w :: w in Words(z, DeviceKey) && HasPrefix(w, "!"))
  }

  predicate HeldByNegation(z: Section) {
    z.kind.Zone? && Words(z, Subnet) == [] && ByNegation(z)
  }

  /** The zone takes addresses of whatever device they come in by. */
  predicate HeldByAddress(z: Section) {
    z.kind.Zone? && Words(z, Subnet) != [] && (Unbound(z) || ByNegation(z))
  }

  /** It takes this packet's. */
  predicate TakesAddress(lib: Library, z: Section, p: Packet) {
    HeldByAddress(z) && !p.v6 && exists r :: r in RangesOf(lib, z) && r.Contains(p.source)
  }

  /** It takes some of the guests' networks. */
  predicate TakesNetwork(st: State, z: Section) {
    HeldByAddress(z) && exists r, g :: r in RangesOf(st.lib, z) && g in GuestNetworks(st) && Overlaps(r, g)
  }

  predicate NoneByNegation(firewall: seq<Section>) {
    forall z :: z in firewall ==> !HeldByNegation(z)
  }

  /** No zone of these can hold a guest's packet; no packet from an assigned
      address; not this packet. */
  predicate NoneHolds(firewall: seq<Section>) {
    forall z :: z in firewall ==> !HeldByNegation(z) && !HeldByAddress(z)
  }

  predicate NoneHoldsAssigned(st: State, firewall: seq<Section>) {
    forall z :: z in firewall ==> !HeldByNegation(z) && !TakesNetwork(st, z)
  }

  predicate NoneTakes(lib: Library, firewall: seq<Section>, p: Packet) {
    forall z :: z in firewall ==> !HeldByNegation(z) && !TakesAddress(lib, z, p)
  }

  /** The sections up to the guests' own zone. */
  function Ahead(firewall: seq<Section>): (r: seq<Section>)
    ensures forall s :: s in r ==> s in firewall && s.id != Guest
  {
    if firewall == [] || firewall[0].id == Guest then [] else [firewall[0]] + Ahead(firewall[1..])
  }

  /** What the recipe lets guests ask of the router: DHCP, DNS, neighbour
      discovery and DHCPv6. */
  predicate Service(p: Packet) {
    p.to == ""
    && (|| (p.transport.Udp? && 67 <= p.transport.port <= 68)
        || ((p.transport.Udp? || p.transport.Tcp?) && p.transport.port == 53)
        || (p.v6 && p.transport.Icmp?
            && Discovery(p.transport.message))
        || (p.v6 && p.transport.Udp? && p.transport.port == 547))
  }

  // ---- What the checks establish ----

  lemma Verdicts()
    ensures !Accepting("REJECT") && Closed("REJECT") && Accepting("ACCEPT")
  {
    FoldWord("REJECT", "ACCEPT");
  }

  lemma FoldWord(a: string, b: string)
    requires a != "" && b != "" && Lower(a[0]) != Lower(b[0])
    ensures !EqualFold(a, b)
  {
    assert ToLower(a)[0] == Lower(a[0]) && ToLower(b)[0] == Lower(b[0]);
  }

  /** What the checks leave standing. */
  predicate Kept(st: State) {
    var wan := UplinkZone(st);
    && Find(st.firewall, Guest).Some? && GuestZone(Find(st.firewall, Guest).value) && Made(st.network)
    && !GuestOpenings(st.firewall, wan, RULES) && RulesAsMade(st.firewall, wan)
    && (forall s :: s in st.network ==> !OtherOnBridge(s))
    && !Covered(st)
    && (forall s :: s in st.firewall ==> !OpenToAll(s) && !TakesGuests(s) && !HasHazard(st.lib, s))
    && (forall s :: s in st.firewall && Opt(s, Name) == wan ==> !HoldsHome(s, st.network))
  }

  predicate GuestZone(zone: Section) {
    && zone.kind.Zone? && Closed(Opt(zone, Input)) && Closed(Opt(zone, Forward))
    && Opt(zone, Name) == GUEST && Opt(zone, Network) == GUEST && zone.opts.Keys <= ZONE_KEYS
  }

  lemma ChecksKeep(st: State)
    requires GuestBlocker(st).None? && st.Shape().ours
    ensures Kept(st)
  {
    hide UplinkSection, Closed, RulesAsMade, GuestOpenings, Covered, OpenToAll, TakesGuests, HasHazard, HoldsHome, OtherOnBridge, Made, NoNat, SkipsGuests, BridgeChanged, Uplink6Zone, In, Opt, Words;
    var zone := Find(st.firewall, Guest).value;
    assert FirewallTraces(st.firewall);
  }

  // ---- The packet is in the guests' zone ----

  lemma Overlapping(p: Net, q: Net, a: nat)
    requires p.family == q.family && p.Contains(a) && q.Contains(a)
    ensures Overlaps(p, q)
  {
    MaskedSame(p, a);
    MaskedSame(q, a);
    OverlapIsBaseContainment(p.Masked(), q.Masked());
  }

  lemma GuestZoneWords(zone: Section)
    requires GuestZone(zone)
    ensures Words(zone, Network) == [GUEST] && Words(zone, DeviceKey) == [] && Words(zone, Subnet) == []
    ensures !HasPrefix(GUEST, "!")
  {
    hide Fields, Closed;
    OneField(GUEST) by { GuestIsWord(); }
    GuestIsWord();
    assert DeviceKey !in zone.opts && Subnet !in zone.opts;
    assert Fields("") == [] by { NoFields(); }
  }

  lemma NoFields()
    ensures Fields("") == []
  {
  }

  lemma GuestIsWord()
    ensures IsWord(GUEST) && !HasPrefix(GUEST, "!")
  {
    assert GUEST[..1][0] != "!"[0];
  }

  lemma GuestOnBridge(network: seq<Section>)
    requires Made(network)
    ensures OnBridge(network, GUEST)
  {
    hide Words, Fields;
    var iface := Find(network, Guest).value;
    assert IdWord(iface.id) == GUEST;
  }

  lemma GuestZoneHolds(st: State, p: Packet)
    requires Kept(st)
    ensures InZone(Find(st.firewall, Guest).value, st, p)
  {
    hide RulesAsMade, GuestOpenings, Covered, OpenToAll, TakesGuests, HasHazard, HoldsHome, OtherOnBridge, Made, OnBridge, Words, Find;
    var zone := Find(st.firewall, Guest).value;
    GuestZoneWords(zone);
    GuestOnBridge(st.network);
    assert GUEST in Words(zone, Network) && NetworkHolds(st.network, GUEST);
  }

  lemma OnlyGuestsOn(st: State, w: string)
    requires Kept(st) && OnBridge(st.network, w)
    ensures w == GUEST
  {
    hide RulesAsMade, GuestOpenings, Covered, OpenToAll, HasHazard, HoldsHome, Words, Made, GuestZone, Find, TakesGuests;
  }

  /** Where the checks find nothing, another zone is bound to the guests' bridge
      exactly when it is so by a negation. */
  lemma BoundByNegation(st: State, z: Section)
    requires Kept(st) && z in st.firewall && z.kind.Zone? && z.id != Guest
    ensures Bound(z, st.network) <==> ByNegation(z)
  {
    hide RulesAsMade, GuestOpenings, Covered, OpenToAll, HasHazard, HoldsHome, Words, Made, GuestZone, Names, OnBridge, OtherOnBridge, Find;
    assert !TakesGuests(z);
    forall w | w in Words(z, Network) ensures NetworkHolds(st.network, w) <==> HasPrefix(w, "!") && w != NOT_GUEST {
      NetworkWord(st, w);
    }
    forall w | w in Words(z, DeviceKey) ensures DeviceHolds(w) <==> HasPrefix(w, "!") {
      assert HasPrefix(w, "!") ==> TrimPrefix(w, "!") == w[1..];
      assert !HasPrefix(w, "!") ==> TrimPrefix(w, "!") == w;
    }
  }

  lemma NetworkWord(st: State, w: string)
    requires Kept(st) && w != GUEST
    ensures NetworkHolds(st.network, w) <==> HasPrefix(w, "!") && w != NOT_GUEST
  {
    hide RulesAsMade, GuestOpenings, Covered, OpenToAll, HasHazard, HoldsHome, Words, Made, GuestZone, OnBridge, OtherOnBridge, Find, TakesGuests;
    GuestOnBridge(st.network);
    assert NOT_GUEST[1..] == GUEST;
    if HasPrefix(w, "!") {
      assert w == "!" + w[1..] && NOT_GUEST == "!" + GUEST;
      if OnBridge(st.network, w[1..]) {
        OnlyGuestsOn(st, w[1..]);
      }
    } else if OnBridge(st.network, w) {
      OnlyGuestsOn(st, w);
    }
  }

  /** A range of another zone is an IPv4 network written as such. */
  lemma RangeWord(st: State, z: Section, v: string)
    requires Kept(st) && z in st.firewall && z.kind.Zone? && z.id != Guest && v in Words(z, Subnet)
    ensures TrimPrefix(v, "!") == v && !HasPrefix(v, "!") && PrefixOf(st.lib, v).Some?
    ensures PrefixOf(st.lib, v).value.family == V4 && PrefixOf(st.lib, v).value in RangesOf(st.lib, z)
  {
    hide RulesAsMade, GuestOpenings, OpenToAll, TakesGuests, HoldsHome, OtherOnBridge, Made, GuestZone, Words, Covered, Find;
    assert !HasHazard(st.lib, z);
    assert !Hazard(st.lib, v);
    assert BoundRange(st.lib, z, PrefixOf(st.lib, v).value);
  }

  /** Another zone holds a packet only in one of the two ways. */
  lemma HeldHow(st: State, z: Section, p: Packet)
    requires Kept(st) && z in st.firewall && z.id != Guest && InZone(z, st, p)
    ensures HeldByNegation(z) || TakesAddress(st.lib, z, p)
  {
    hide Kept, Words, Bound, ByNegation, RangesOf, PrefixOf, HasPrefix;
    BoundByNegation(st, z);
    if Words(z, Subnet) != [] {
      var v :| v in Words(z, Subnet) && RangeHolds(st.lib, v, p);
      RangeWord(st, z, v);
    } else {
      assert !Unbound(z);
    }
  }

  /** A packet to the router itself with nothing remarkable about it. */
  function Unremarkable(v6: bool, source: nat, id: Id): Packet {
    Packet(v6, source, "", 0, Other, {(Family, if v6 then "ipv6" else "ipv4"), (Proto, "all")}, {id})
  }

  lemma DistinctWords()
    ensures "ipv4" != "ipv6" && "all" != "udp" && "all" != "tcp udp" && "all" != "icmp"
  {
    assert "ipv4"[3] != "ipv6"[3] && "all"[0] != "udp"[0] && "all"[0] != "tcp udp"[0] && "all"[0] != "icmp"[0];
  }

  lemma UnremarkableIsSensible(v6: bool, source: nat, id: Id)
    ensures Sensible(Unremarkable(v6, source, id))
  {
    hide Private4, Private6, IcmpTypes, ListHolds, Fields, Sensible;
    DistinctWords();
    var p, word := Unremarkable(v6, source, id), if v6 then "ipv6" else "ipv4";
    SensibleIf(p, word, "ipv4", "ipv6", "all", "udp", "tcp udp", "icmp");
  }

  lemma ZeroIsUnlisted(f: Prefixes.Family)
    ensures !ListHolds(Private4(), f, 0) && !ListHolds(Private6(), f, 0)
  {
    hide ListHolds, Private4, Private6, Pow2;
    ListedIsPrivate4(f, 0);
    ListedIsPrivate6(f, 0);
  }

  /** The same with the words by name. */
  lemma SensibleIf(p: Packet, word: string, four: string, six: string, every: string, udp: string, both: string, icmp: string)
    requires p.holds == {(Family, word), (Proto, every)} && p.transport.Other? && p.dest == 0
    requires word == (if p.v6 then six else four) && four != six
    requires every != udp && every != both && every != icmp
    requires four == "ipv4" && six == "ipv6" && every == "all" && udp == "udp" && both == "tcp udp" && icmp == "icmp"
    ensures Sensible(p)
  {
    hide Private4, Private6, IcmpTypes, ListHolds, Fields;
    forall k, w ensures (k, w) in p.holds <==> (k == Family && w == word) || (k == Proto && w == every) {
    }
    ZeroIsUnlisted(Of(p));
  }

  lemma Shared(p: Net, q: Net) returns (a: nat)
    requires Overlaps(p, q)
    ensures p.Contains(a) && q.Contains(a)
  {
    OverlapIsBaseContainment(p.Masked(), q.Masked());
    a :| p.Masked().Contains(a) && q.Masked().Contains(a);
    MaskedSame(p, a);
    MaskedSame(q, a);
  }

  /** And in either of the two ways it does hold some. */
  lemma NegationHolds(st: State, z: Section) returns (p: Packet)
    requires Kept(st) && z in st.firewall && z.id != Guest && HeldByNegation(z)
    ensures FromGuest(st, p) && InZone(z, st, p)
  {
    hide Kept, Words, Bound, Sensible, GuestNetworks, HasPrefix, PrefixOf;
    BoundByNegation(st, z);
    p := Unremarkable(true, 0, z.id);
    UnremarkableIsSensible(true, 0, z.id);
  }

  lemma AddressHolds(st: State, z: Section, v: string, a: nat) returns (p: Packet)
    requires Kept(st) && z in st.firewall && z.id != Guest && HeldByAddress(z) && v in Words(z, Subnet)
    requires PrefixOf(st.lib, v).Some? && PrefixOf(st.lib, v).value.Contains(a)
    ensures p == Unremarkable(false, a, z.id) && Sensible(p) && InZone(z, st, p)
  {
    hide Kept, Words, Bound, Sensible, HasPrefix, PrefixOf;
    BoundByNegation(st, z);
    RangeWord(st, z, v);
    p := Unremarkable(false, a, z.id);
    UnremarkableIsSensible(false, a, z.id);
    assert RangeHolds(st.lib, v, p);
  }

  lemma AnyAddress(st: State, z: Section) returns (p: Packet)
    requires Kept(st) && z in st.firewall && z.id != Guest && HeldByAddress(z)
    ensures Sensible(p) && InZone(z, st, p)
  {
    hide Kept, Words, Sensible, PrefixOf, InZone, ByNegation, Unremarkable;
    var v := Words(z, Subnet)[0];
    RangeWord(st, z, v);
    p := AddressHolds(st, z, v, PrefixOf(st.lib, v).value.addr);
  }

  lemma AssignedAddress(st: State, z: Section) returns (p: Packet)
    requires Kept(st) && z in st.firewall && z.id != Guest && TakesNetwork(st, z)
    ensures FromGuest(st, p) && InZone(z, st, p)
  {
    hide Kept, Words, Sensible, GuestNetworks, Overlaps, HasPrefix, PrefixOf, InZone, HeldByAddress;
    var r, g :| r in RangesOf(st.lib, z) && g in GuestNetworks(st) && Overlaps(r, g);
    var v :| v in Words(z, Subnet) && !HasPrefix(v, "!") && PrefixOf(st.lib, v) == Some(r);
    RangeWord(st, z, v);
    var a := Shared(r, g);
    SameFamily(r, g);
    p := AddressHolds(st, z, v, a);
  }

  lemma SameFamily(p: Net, q: Net)
    requires Overlaps(p, q)
    ensures p.family == q.family
  {
  }

  /** A packet is in the guests' zone unless one before it holds the packet. */
  lemma {:induction false} FirstToHold(firewall: seq<Section>, st: State, p: Packet)
    requires Find(firewall, Guest).Some? && InZone(Find(firewall, Guest).value, st, p)
    ensures SourceZone(firewall, st, p) == Find(firewall, Guest) <==> forall z :: z in Ahead(firewall) ==> !InZone(z, st, p)
  {
    hide InZone;
    if firewall[0].id != Guest {
      FirstToHold(firewall[1..], st, p);
      if InZone(firewall[0], st, p) {
        assert firewall[0] in Ahead(firewall);
      }
      assert forall z :: z in Ahead(firewall) <==> z == firewall[0] || z in Ahead(firewall[1..]);
    }
  }

  /** Where the checks find nothing, a packet that no zone before the guests' own
      takes is put in theirs. */
  lemma PacketInZone(st: State, p: Packet)
    requires Kept(st) && NoneTakes(st.lib, Ahead(st.firewall), p)
    ensures SourceZone(st.firewall, st, p) == Find(st.firewall, Guest)
  {
    hide Kept, SourceZone, Find, InZone, HeldByNegation, TakesAddress, Ahead;
    HasGuestZone(st);
    GuestZoneHolds(st, p);
    FirstToHold(st.firewall, st, p);
    forall z | z in Ahead(st.firewall) ensures !InZone(z, st, p) {
      if InZone(z, st, p) {
        HeldHow(st, z, p);
      }
    }
  }

  lemma HeldAhead(st: State, z: Section, p: Packet)
    requires Kept(st) && z in Ahead(st.firewall) && InZone(z, st, p)
    ensures SourceZone(st.firewall, st, p) != Find(st.firewall, Guest)
  {
    hide Kept, SourceZone, Find, InZone, Ahead;
    HasGuestZone(st);
    GuestZoneHolds(st, p);
    FirstToHold(st.firewall, st, p);
  }

  /** Where the checks find nothing, every packet that comes in by the guests'
      bridge, from whatever address, is put in the guests' zone exactly when no
      zone before it holds packets by a negation or by their address alone. */
  lemma InGuestZone(st: State)
    requires Kept(st)
    ensures (forall p :: Sensible(p) ==> SourceZone(st.firewall, st, p) == Find(st.firewall, Guest)) <==> NoneHolds(Ahead(st.firewall))
  {
    hide Kept, Sensible, FromGuest, SourceZone, Find, InZone, HeldByNegation, HeldByAddress, Ahead;
    if NoneHolds(Ahead(st.firewall)) {
      forall p | Sensible(p) ensures SourceZone(st.firewall, st, p) == Find(st.firewall, Guest) {
        PacketInZone(st, p);
      }
    } else {
      var z :| z in Ahead(st.firewall) && (HeldByNegation(z) || HeldByAddress(z));
      var p;
      if HeldByNegation(z) {
        p := NegationHolds(st, z);
        FromGuestIsSensible(st, p);
      } else {
        p := AnyAddress(st, z);
      }
      HeldAhead(st, z, p);
    }
  }

  lemma AssignedTakesNone(st: State, p: Packet)
    requires Kept(st) && FromGuest(st, p) && NoneHoldsAssigned(st, Ahead(st.firewall))
    ensures NoneTakes(st.lib, Ahead(st.firewall), p)
  {
    hide Kept, HeldByNegation, HeldByAddress, Ahead, GuestNetworks, Overlaps, Sensible, Words;
    forall z | z in Ahead(st.firewall) ensures !TakesAddress(st.lib, z, p) {
      if TakesAddress(st.lib, z, p) {
        var r :| r in RangesOf(st.lib, z) && r.Contains(p.source);
        RangeIsV4(st, z, r);
        var g :| g in GuestNetworks(st) && g.family == V4 && g.Contains(p.source);
        Overlapping(r, g, p.source);
      }
    }
  }

  lemma RangeIsV4(st: State, z: Section, r: Net)
    requires Kept(st) && z in st.firewall && r in RangesOf(st.lib, z)
    ensures r.family == V4
  {
    hide Kept, Words, PrefixOf, HasPrefix;
    var v :| v in Words(z, Subnet) && !HasPrefix(v, "!") && PrefixOf(st.lib, v) == Some(r);
    RangeWord(st, z, v);
  }

  /** The same of packets from assigned addresses alone. */
  lemma AssignedInZone(st: State)
    requires Kept(st)
    ensures (forall p :: FromGuest(st, p) ==> SourceZone(st.firewall, st, p) == Find(st.firewall, Guest))
      <==> NoneHoldsAssigned(st, Ahead(st.firewall))
  {
    hide Kept, FromGuest, SourceZone, Find, InZone, HeldByNegation, TakesNetwork, Ahead, NoneTakes;
    if NoneHoldsAssigned(st, Ahead(st.firewall)) {
      forall p | FromGuest(st, p) ensures SourceZone(st.firewall, st, p) == Find(st.firewall, Guest) {
        AssignedTakesNone(st, p);
        PacketInZone(st, p);
      }
    } else {
      var z :| z in Ahead(st.firewall) && (HeldByNegation(z) || TakesNetwork(st, z));
      var p;
      if HeldByNegation(z) {
        p := NegationHolds(st, z);
      } else {
        p := AssignedAddress(st, z);
      }
      HeldAhead(st, z, p);
    }
  }

  lemma RangeIsCovered(st: State, z: Section)
    requires z in st.firewall && TakesNetwork(st, z) && |GuestNetworks(st)| == 1
    ensures Covered(st)
  {
    hide Words, GuestNetworks, Overlaps, ZoneSubnets, BoundRange, ByNegation;
    var r, g :| r in RangesOf(st.lib, z) && g in GuestNetworks(st) && Overlaps(r, g);
    ZoneSubnetsAreRanges(st.lib, st.firewall, r);
    assert g == GuestNetworks(st)[0];
  }

  lemma KeptUncovered(st: State)
    requires Kept(st)
    ensures !Covered(st)
  {
    hide RulesAsMade, GuestOpenings, OpenToAll, TakesGuests, HoldsHome, OtherOnBridge, Made, GuestZone, HasHazard, Covered, Find;
  }

  /** With one guest network the range check of the guest network itself settles
      the ranges for the addresses assigned in it, and only negations are left to
      look for. */
  lemma OneNetwork(st: State)
    requires Kept(st) && |GuestNetworks(st)| == 1
    ensures NoneHoldsAssigned(st, Ahead(st.firewall)) <==> NoneByNegation(Ahead(st.firewall))
  {
    hide Kept, TakesNetwork, HeldByNegation, GuestNetworks, Ahead, Covered;
    KeptUncovered(st);
    forall z | z in Ahead(st.firewall) ensures !TakesNetwork(st, z) {
      if TakesNetwork(st, z) {
        RangeIsCovered(st, z);
      }
    }
  }

  lemma HasGuestZone(st: State)
    requires Kept(st)
    ensures Find(st.firewall, Guest).Some? && GuestZone(Find(st.firewall, Guest).value)
    ensures Opt(Find(st.firewall, Guest).value, Name) == GUEST
  {
    hide RulesAsMade, GuestOpenings, Covered, OpenToAll, TakesGuests, HasHazard, HoldsHome, OtherOnBridge, Made;
  }

  // ---- What may be accepted ----

  lemma NotRedirected(st: State, s: Section, p: Packet)
    requires Kept(st) && Unique(st.firewall) && s in st.firewall
    ensures !Redirected(s, GUEST, p)
  {
    hide Find, Covered, TakesGuests, HasHazard, HoldsHome, OtherOnBridge, Made, GuestZone, Words, RulesAsMade;
    if s.kind.Redirect? && Skipped(s.id, RULES) {
      IsRecipe(st, s);
    }
    assert !OpenToAll(s) && !Reflects(s);
  }

  lemma IsRecipe(st: State, s: Section)
    requires Kept(st) && Unique(st.firewall) && s in st.firewall && Skipped(s.id, RULES)
    ensures ReadsAs(Spec(s.id.role, UplinkZone(st)), s)
  {
    hide Find, Covered, TakesGuests, HasHazard, HoldsHome, OtherOnBridge, Made, GuestZone, Words, GuestOpenings, OpenToAll, ReadsAs;
    FindTheOne(st.firewall, s);
  }

  /** An accepting rule from the guests' zone is one of the recipe's. */
  lemma AcceptingIsRecipe(st: State, s: Section, p: Packet)
    requires Kept(st) && Unique(st.firewall) && s in st.firewall && Decides(s, GUEST, p) && Accepting(Opt(s, Target))
    ensures Skipped(s.id, RULES)
  {
    hide Find, Covered, TakesGuests, HasHazard, HoldsHome, OtherOnBridge, Made, GuestZone, Words, RulesAsMade, OpenToAll, Accepting;
    assert !OpensFromGuests(s, UplinkZone(st)) || Skipped(s.id, RULES);
  }

  lemma RecipeIsService(r: Role, wan: string, s: Section, p: Packet)
    requires r in RULES && ReadsAs(Spec(r, wan), s) && MatchesRule(s, GUEST, p) && Accepting(Opt(s, Target)) && Sensible(p)
    ensures Service(p)
  {
    hide Sensible, ListHolds, Accepting, Fields, Closed, IsPrivate4, IsPrivate6, Private4, Private6, IcmpTypes;
    Listed(p);
    Verdicts();
    assert r != NoPrivate4 && r != NoPrivate6;
    assert Dest !in s.opts;
    match r
    case Dhcp => assert (Proto, s.opts[Proto]) in p.holds && (DestPort, s.opts[DestPort]) in p.holds;
    case Dns => assert (Proto, s.opts[Proto]) in p.holds && (DestPort, s.opts[DestPort]) in p.holds;
    case Icmpv6 => assert (Proto, s.opts[Proto]) in p.holds && (IcmpType, s.opts[IcmpType]) in p.holds && (Family, s.opts[Family]) in p.holds;
    case Dhcpv6 => assert (Proto, s.opts[Proto]) in p.holds && (DestPort, s.opts[DestPort]) in p.holds && (Family, s.opts[Family]) in p.holds;
  }

  /** A rule that reads as this one, all of whose conditions hold, decides. */
  lemma RuleDecides(want: map<Key, string>, s: Section, p: Packet)
    requires ReadsAs(want, s) && Src in want && want[Src] == GUEST && Target in want
    requires Accepting(want[Target]) || Closed(want[Target])
    requires Proto in want && Enabled !in want && DestHolds(if Dest in want then want[Dest] else "", p.to)
    requires forall k :: k in want.Keys - PLACE ==> (k, want[k]) in p.holds
    ensures Decides(s, GUEST, p)
  {
    hide Accepting, Closed;
    assert (Dest in s.opts <==> Dest in want) && "0"[0] != "1"[0];
    assert forall k :: k in s.opts.Keys - PLACE ==> k in want;
  }

  /** The recipe's rule for the packet's family takes every private
      destination on the way to the uplink. */
  lemma PrivateIsTaken(r: Role, wan: string, s: Section, p: Packet)
    requires r == (if p.v6 then NoPrivate6 else NoPrivate4) && ReadsAs(Spec(r, wan), s) && Sensible(p)
    requires p.to == wan && Private(p)
    ensures Decides(s, GUEST, p)
  {
    hide Sensible, Accepting, Closed, Fields, IsPrivate4, IsPrivate6, Private4, Private6, IcmpTypes, ReadsAs, MatchesRule, Decides;
    Listed(p);
    Verdicts();
    var want := Spec(r, wan);
    assert want[Target] == "REJECT" && want[Dest] == wan && want.Keys - PLACE == {Family, Proto, DestIp};
    RuleDecides(want, s, p);
  }

  /** A guest network against which the checks find nothing keeps guests to the
      internet: whatever else the firewall holds, every packet of theirs that no
      earlier zone takes and that is accepted asks the router for one of the four services, or goes out by
      the uplink's zone to an address that is not private. */
  lemma GuestsAreKept(st: State, p: Packet)
    requires GuestBlocker(st).None? && st.Shape().ours && Unique(st.firewall)
    requires UplinkZone(st) != "*" && Sensible(p) && NoneTakes(st.lib, Ahead(st.firewall), p)
    ensures Accepted(st, p) ==> Service(p) || (p.to == UplinkZone(st) && !Private(p))
  {
    ChecksKeep(st);
    hide GuestBlocker, UplinkZone, State.Shape, Private, Service, Decides, NoneTakes, Ahead, Kept, SourceZone, Find, FirstRule, Accepted, Sensible;
    PacketInZone(st, p);
    if Accepted(st, p) {
      AcceptedHow(st, p);
    }
  }

  /** So it is of every packet from every address, when no zone before the
      guests' own can hold any. */
  lemma AllGuestsAreKept(st: State)
    requires GuestBlocker(st).None? && st.Shape().ours && Unique(st.firewall)
    requires UplinkZone(st) != "*" && NoneHolds(Ahead(st.firewall))
    ensures forall p :: Sensible(p) && Accepted(st, p) ==> Service(p) || (p.to == UplinkZone(st) && !Private(p))
  {
    hide GuestBlocker, UplinkZone, State.Shape, Private, Service, Ahead, Accepted, Sensible, Unique, HeldByAddress, HeldByNegation;
    forall p | Sensible(p) && Accepted(st, p) ensures Service(p) || (p.to == UplinkZone(st) && !Private(p)) {
      GuestsAreKept(st, p);
    }
  }

  lemma StarRefuses(st: State, s: Section, p: Packet)
    requires Kept(st) && s in st.firewall && Decides(s, "*", p)
    ensures !Accepting(Opt(s, Target))
  {
    hide Find, Covered, TakesGuests, HasHazard, HoldsHome, OtherOnBridge, Made, GuestZone, Words, RulesAsMade, GuestOpenings, Accepting, Closed;
    assert !OpenToAll(s);
  }

  lemma ForwardsToUplink(st: State, s: Section, p: Packet)
    requires Kept(st) && Unique(st.firewall) && s in st.firewall && Forwards(s, GUEST, p) && UplinkZone(st) != "*"
    ensures p.to == UplinkZone(st)
  {
    hide Find, Covered, TakesGuests, HasHazard, HoldsHome, OtherOnBridge, Made, GuestZone, Words, RulesAsMade, UplinkZone;
    if Skipped(s.id, RULES) {
      IsRecipe(st, s);
    }
    assert !OpenToAll(s);
  }

  lemma PrivateIsDecided(st: State, p: Packet)
    requires Kept(st) && Sensible(p) && p.to == UplinkZone(st) && Private(p)
    ensures FirstRule(st.firewall, GUEST, p).Some?
  {
    hide Covered, TakesGuests, HasHazard, HoldsHome, OtherOnBridge, Made, GuestZone, Words, GuestOpenings, OpenToAll, UplinkZone, Private, Sensible, Decides;
    var r := if p.v6 then NoPrivate6 else NoPrivate4;
    var s := Find(st.firewall, Own(r)).value;
    PrivateIsTaken(r, UplinkZone(st), s, p);
  }

  lemma AcceptedHow(st: State, p: Packet)
    requires Kept(st) && Unique(st.firewall) && UplinkZone(st) != "*" && Sensible(p) && Accepted(st, p)
    requires SourceZone(st.firewall, st, p) == Find(st.firewall, Guest)
    ensures Service(p) || (p.to == UplinkZone(st) && !Private(p))
  {
    hide Kept, SourceZone, Find, FirstRule, Redirected, Forwards, Decides, UplinkZone, Sensible, Private, Service, Accepting, Closed, Opt, MatchesRule, Spec, ReadsAs, Skipped, Unique;
    HasGuestZone(st);
    var zone := Find(st.firewall, Guest).value;
    forall s | s in st.firewall ensures !Redirected(s, GUEST, p) {
      NotRedirected(st, s, p);
    }
    var star, own := FirstRule(st.firewall, "*", p), FirstRule(st.firewall, GUEST, p);
    if star.Some? && star.value {
      var s :| s in st.firewall && Decides(s, "*", p) && Accepting(Opt(s, Target));
      StarRefuses(st, s, p);
    } else if own.Some? && own.value {
      var s :| s in st.firewall && Decides(s, GUEST, p) && Accepting(Opt(s, Target));
      AcceptingIsRecipe(st, s, p);
      IsRecipe(st, s);
      DecidesMatches(s, GUEST, p);
      SkippedRole(s.id);
      RecipeIsService(s.id.role, UplinkZone(st), s, p);
    } else {
      assert own.None?;
      var s :| s in st.firewall && Forwards(s, GUEST, p);
      ForwardsToUplink(st, s, p);
      if Private(p) {
        PrivateIsDecided(st, p);
      }
    }
  }

  lemma DecidesMatches(s: Section, src: string, p: Packet)
    requires Decides(s, src, p)
    ensures MatchesRule(s, src, p)
  {
  }

  /** Nothing but the recipe has a say in the packet. */
  predicate OnlyRecipe(st: State, p: Packet) {
    && Own(Wan) in p.meets
    && forall s :: s in st.firewall ==> !Decides(s, "*", p) && (Decides(s, GUEST, p) ==> Skipped(s.id, RULES))
  }

  function ServiceRole(p: Packet): (r: Role)
    requires Service(p)
    ensures r in RULES
  {
    if p.transport.Icmp? then Icmpv6
    else if p.transport.Udp? && 67 <= p.transport.port <= 68 then Dhcp
    else if p.transport.port == 53 then Dns
    else Dhcpv6
  }

  lemma ServiceMatches(wan: string, s: Section, p: Packet)
    requires Service(p) && Sensible(p) && ReadsAs(Spec(ServiceRole(p), wan), s)
    ensures Decides(s, GUEST, p)
  {
    hide Sensible, Accepting, Closed, Fields, IsPrivate4, IsPrivate6, Private4, Private6, IcmpTypes, ReadsAs, MatchesRule, Decides;
    Listed(p);
    Verdicts();
    var r := ServiceRole(p);
    var want := Spec(r, wan);
    assert want[Target] == "ACCEPT" && Proto in want && Dest !in want && want[Src] == GUEST;
    match r {
      case Dhcp => assert want.Keys - PLACE == {Proto, DestPort};
      case Dns => assert want.Keys - PLACE == {Proto, DestPort};
      case Icmpv6 => assert want.Keys - PLACE == {Proto, Family, IcmpType};
      case Dhcpv6 => assert want.Keys - PLACE == {Proto, Family, DestPort};
    }
    RuleDecides(want, s, p);
  }

  lemma RefusingIsPrivate(r: Role, wan: string, s: Section, p: Packet)
    requires r in RULES && ReadsAs(Spec(r, wan), s) && MatchesRule(s, GUEST, p) && !Accepting(Opt(s, Target))
    requires Sensible(p) && wan != "*" && wan != ""
    ensures p.to == wan && Private(p)
  {
    hide Sensible, ListHolds, Accepting, Fields, Closed, IsPrivate4, IsPrivate6, Private4, Private6, IcmpTypes;
    Listed(p);
    Verdicts();
    assert r == NoPrivate4 || r == NoPrivate6;
    assert (DestIp, s.opts[DestIp]) in p.holds;
  }

  lemma PassesForward(st: State, p: Packet)
    requires GuestBlocker(st).None? && st.Shape().ours && Own(Wan) in p.meets && p.to == UplinkZone(st)
    ensures exists s :: s in st.firewall && Forwards(s, GUEST, p)
  {
    hide UplinkZone, Closed, RulesAsMade, GuestOpenings, Covered, OpenToAll, TakesGuests, HasHazard, HoldsHome, OtherOnBridge, Made, NoNat, SkipsGuests, BridgeChanged, Uplink6Zone, In, Words;
    assert Forwards(Find(st.firewall, Own(Wan)).value, GUEST, p);
  }

  /** Where the recipe alone decides, guests get exactly what it promises: the
      four services of the router, and everything beyond the uplink that is not
      private. */
  lemma GuestsAreServed(st: State, p: Packet)
    requires GuestBlocker(st).None? && st.Shape().ours && Unique(st.firewall)
    requires UplinkZone(st) != "*" && Sensible(p) && NoneTakes(st.lib, Ahead(st.firewall), p) && OnlyRecipe(st, p)
    ensures Accepted(st, p) <==> Service(p) || (p.to == UplinkZone(st) && !Private(p))
  {
    hide UplinkZone, Private, Service, Decides, NoneTakes, Ahead, Kept, SourceZone, Find, FirstRule, Redirected, Forwards, OnlyRecipe, GuestZone, Sensible, GuestBlocker, State.Shape, Opt, Accepted;
    GuestsAreKept(st, p);
    ChecksKeep(st);
    PacketInZone(st, p);
    HasGuestZone(st);
    HasUplink(st);
    if Service(p) {
      ServiceIsAccepted(st, p);
      AcceptedWhen(st, p);
    } else if p.to == UplinkZone(st) && !Private(p) {
      assert Own(Wan) in p.meets by { WanMeets(st, p); }
      PassesForward(st, p);
      NothingRefuses(st, p);
      AcceptedWhen(st, p);
    }
  }

  /** A guest that has no address yet can ask for one. */
  lemma DiscoverIsServed(st: State, p: Packet)
    requires GuestBlocker(st).None? && st.Shape().ours && Unique(st.firewall)
    requires UplinkZone(st) != "*" && Sensible(p) && NoneTakes(st.lib, Ahead(st.firewall), p) && OnlyRecipe(st, p)
    requires !p.v6 && p.source == 0 && p.to == "" && p.transport == Udp(67)
    ensures Accepted(st, p)
  {
    hide GuestBlocker, UplinkZone, State.Shape, Private, Ahead, NoneTakes, OnlyRecipe, Accepted, Sensible, Unique;
    GuestsAreServed(st, p);
  }

  lemma AcceptedWhen(st: State, p: Packet)
    requires SourceZone(st.firewall, st, p) == Find(st.firewall, Guest) && Find(st.firewall, Guest).Some?
    requires Opt(Find(st.firewall, Guest).value, Name) == GUEST && FirstRule(st.firewall, "*", p).None?
    requires var own := FirstRule(st.firewall, GUEST, p);
      if own.Some? then own.value else exists s :: s in st.firewall && Forwards(s, GUEST, p)
    ensures Accepted(st, p)
  {
    hide SourceZone, Find, FirstRule, Redirected, Forwards;
  }

  lemma WanMeets(st: State, p: Packet)
    requires OnlyRecipe(st, p)
    ensures Own(Wan) in p.meets
  {
  }

  lemma HasUplink(st: State)
    requires GuestBlocker(st).None?
    ensures UplinkZone(st) != ""
  {
    hide UplinkZone, State.Shape;
  }

  lemma FromGuestIsSensible(st: State, p: Packet)
    requires FromGuest(st, p)
    ensures Sensible(p)
  {
    hide Sensible;
  }

  lemma NobodyDecides(firewall: seq<Section>, src: string, p: Packet)
    requires forall s :: s in firewall ==> !Decides(s, src, p)
    ensures FirstRule(firewall, src, p).None?
  {
    hide Decides;
    hide FirstRule;
  }

  lemma NothingRefuses(st: State, p: Packet)
    requires Kept(st) && Unique(st.firewall) && Sensible(p) && OnlyRecipe(st, p) && UplinkZone(st) != "*" && UplinkZone(st) != ""
    requires !(p.to == UplinkZone(st) && Private(p))
    ensures FirstRule(st.firewall, "*", p).None? && (FirstRule(st.firewall, GUEST, p).Some? ==> FirstRule(st.firewall, GUEST, p).value)
  {
    hide Kept, Decides, UplinkZone, Private, Sensible, Accepting, Opt, Skipped, FirstRule, ReadsAs, Spec, MatchesRule;
    NobodyDecides(st.firewall, "*", p);
    if FirstRule(st.firewall, GUEST, p).Some? && !FirstRule(st.firewall, GUEST, p).value {
      var s :| s in st.firewall && Decides(s, GUEST, p) && !Accepting(Opt(s, Target));
      IsRecipe(st, s);
      DecidesMatches(s, GUEST, p);
      SkippedRole(s.id);
      RefusingIsPrivate(s.id.role, UplinkZone(st), s, p);
    }
  }

  lemma SkippedRole(id: Id)
    requires Skipped(id, RULES)
    ensures id.Own? && id.role in RULES
  {
  }

  lemma ServiceIsAccepted(st: State, p: Packet)
    requires Kept(st) && Unique(st.firewall) && Sensible(p) && OnlyRecipe(st, p) && UplinkZone(st) != "*" && UplinkZone(st) != ""
    requires Service(p)
    ensures FirstRule(st.firewall, "*", p).None? && FirstRule(st.firewall, GUEST, p).Some? && FirstRule(st.firewall, GUEST, p).value
  {
    hide Kept, Decides, UplinkZone, Private, Sensible, Accepting, Service, Spec, ReadsAs, OnlyRecipe, FirstRule, Find;
    NothingRefuses(st, p) by { ServiceIsHere(p); }
    var r := ServiceRole(p);
    HasRules(st, r);
    var s := Find(st.firewall, Own(r)).value;
    ServiceMatches(UplinkZone(st), s, p);
  }

  lemma ServiceIsHere(p: Packet)
    requires Service(p)
    ensures p.to == ""
  {
  }

  lemma HasRules(st: State, r: Role)
    requires Kept(st) && r in RULES
    ensures Find(st.firewall, Own(r)).Some? && ReadsAs(Spec(r, UplinkZone(st)), Find(st.firewall, Own(r)).value)
  {
    hide Find, Covered, TakesGuests, HasHazard, HoldsHome, OtherOnBridge, Made, GuestZone, Words, GuestOpenings, OpenToAll, ReadsAs, Spec, UplinkZone;
  }

  /** No packet of a guest reaches a zone the home network is in. */
  lemma NeverHome(st: State, p: Packet, z: Section)
    requires GuestBlocker(st).None? && st.Shape().ours && Unique(st.firewall)
    requires UplinkZone(st) != "*" && Sensible(p) && NoneTakes(st.lib, Ahead(st.firewall), p)
    requires Accepted(st, p) && p.to != "" && z in st.firewall && Opt(z, Name) == p.to
    ensures !HoldsHome(z, st.network)
  {
    GuestsAreKept(st, p);
    ChecksKeep(st);
    hide GuestBlocker, UplinkZone, State.Shape, Private, NoneTakes, Sensible, Accepted, HoldsHome, Opt, GuestOpenings, RulesAsMade, Covered, OpenToAll, TakesGuests, HasHazard, OtherOnBridge, Made, GuestZone, Find;
  }

  /** Every access point on the guest network is kept apart from the others. */
  lemma GuestsAreApart(st: State, s: Section)
    requires GuestBlocker(st).None? && st.Shape().ours && s in st.wireless && s.kind.WifiIface? && OnGuest(s)
    ensures s.id.Own? && Opt(s, Network) == GUEST && Opt(s, Isolate) == "1" && Opt(s, BridgeIsolate) == "1"
  {
    hide UplinkSection, Closed, RulesAsMade, GuestOpenings, Covered, OpenToAll, TakesGuests, HasHazard, HoldsHome, OtherOnBridge, Made, NoNat, SkipsGuests, BridgeChanged, Uplink6Zone, Opt, Words, Find, OnGuest;
    var g := st.Shape();
    assert (s in g.stray <==> Belongs(Stray, s)) && g.stray == [];
    assert s in g.owned <==> Belongs(Owned, s);
    assert s in g.ifaces <==> Belongs(Attached, s);
  }
}
