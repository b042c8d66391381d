/** What the panel's guest network is made of, and how it is told from one made
    by hand (internal/adapters/openwrt/wifi_guest.go). */
module GuestRecipe {
  import opened Outcomes
  import opened Collections
  import opened Text
  import opened UciSections

  const GUEST := "guest"
  const BRIDGE := "br-guest"
  const LAN := "lan"

  // ---- The rules ----

  const ICMP_WORDS: seq<string> := ["router-solicitation", "neighbour-solicitation", "neighbour-advertisement"]
  const PRIVATE4_WORDS: seq<string> := ["10.0.0.0/8", "172.16.0.0/12", "192.168.0.0/16", "100.64.0.0/10", "169.254.0.0/16"]
  const PRIVATE6_WORDS: seq<string> := ["fc00::/7"]

  function IcmpTypes(): string { Join(ICMP_WORDS) }
  function Private4(): string { Join(PRIVATE4_WORDS) }
  function Private6(): string { Join(PRIVATE6_WORDS) }

  /** The firewall rules of the guest network by the role in their name. */
  const RULES: set<Role> := {Dhcp, Dns, Icmpv6, Dhcpv6, NoPrivate4, NoPrivate6}

  /** Every firewall section besides the zone. */
  const SECTIONS: set<Role> := RULES + {Wan}

  function RuleName(r: Role): string
    requires r in RULES
  {
    match r
    case Dhcp => "Guest DHCP"
    case Dns => "Guest DNS"
    case Icmpv6 => "Guest ICMPv6"
    case Dhcpv6 => "Guest DHCPv6"
    case NoPrivate4 => "Guest no private IPv4"
    case _ => "Guest no private IPv6"
  }

  /** The options of a rule as the panel writes them, list items joined. */
  function Spec(r: Role, wan: string): map<Key, string>
    requires r in RULES
  {
    match r
    case Dhcp => map[Src := GUEST, Proto := "udp", DestPort := "67-68", Target := "ACCEPT"]
    case Dns => map[Src := GUEST, Proto := "tcp udp", DestPort := "53", Target := "ACCEPT"]
    case Icmpv6 => map[Src := GUEST, Proto := "icmp", Family := "ipv6", Target := "ACCEPT", IcmpType := IcmpTypes()]
    case Dhcpv6 => map[Src := GUEST, Proto := "udp", Family := "ipv6", DestPort := "547", Target := "ACCEPT"]
    case NoPrivate4 => map[Src := GUEST, Dest := wan, Family := "ipv4", Proto := "all", Target := "REJECT", DestIp := Private4()]
    case _ => map[Src := GUEST, Dest := wan, Family := "ipv6", Proto := "all", Target := "REJECT", DestIp := Private6()]
  }

  /** Options a rule may have besides its recipe. */
  predicate Aside(k: Key, v: string) { k == Name || (k == Enabled && v == "1") }

  /** The rule reads exactly as written: each option of the recipe, and no
      other that narrows or widens it. */
  predicate ReadsAs(want: map<Key, string>, s: Section) {
    && s.kind.Rule?
    && (forall k :: k in want ==> k in s.opts && s.opts[k] == want[k])
    && (forall k :: k in s.opts && k !in want ==> Aside(k, s.opts[k]))
  }

  lemma SubsetOfSize<T>(a: set<T>, b: set<T>)
    requires a <= b && |a| == |b|
    ensures a == b
  {
    if x :| x in b && x !in a {
      SubsetSize(a, b - {x});
    }
  }

  /** Counts the options that are the recipe's own. */
  method Matches(want: map<Key, string>, s: Section) returns (ok: bool)
    requires Name !in want && Enabled !in want
    ensures ok <==> ReadsAs(want, s)
  {
    if !s.kind.Rule? {
      return false;
    }
    hide ReadsAs, Seen;
    var left, got := s.opts.Keys, 0;
    ghost var seen: set<Key> := {};
    NothingSeen(want, s);
    while left != {}
      invariant Seen(want, s, left, seen) && left <= s.opts.Keys && got == |seen|
    {
      var k :| k in left;
      SeeOne(want, s, left, seen, k);
      left := left - {k};
      if !Aside(k, s.opts[k]) {
        if k !in want || want[k] != s.opts[k] {
          return false;
        }
        got := got + 1;
        seen := seen + {k};
      }
    }
    AllSeen(want, s, seen);
    return got == |want|;
  }

  /** The options looked at so far that are the recipe's, every one of the others
      but those left being one a rule may have besides. */
  ghost predicate Seen(want: map<Key, string>, s: Section, left: set<Key>, seen: set<Key>) {
    && seen <= want.Keys && seen !! left
    && (forall k :: k in seen ==> k in s.opts && s.opts[k] == want[k])
    && (forall k :: k in s.opts && k !in left ==> k in seen || Aside(k, s.opts[k]))
  }

  lemma NothingSeen(want: map<Key, string>, s: Section)
    ensures Seen(want, s, s.opts.Keys, {})
  {
  }

  lemma SeeOne(want: map<Key, string>, s: Section, left: set<Key>, seen: set<Key>, k: Key)
    requires Seen(want, s, left, seen) && k in left && k in s.opts
    ensures k !in seen && (Aside(k, s.opts[k]) ==> Seen(want, s, left - {k}, seen))
    ensures k in want && want[k] == s.opts[k] ==> Seen(want, s, left - {k}, seen + {k})
    ensures !Aside(k, s.opts[k]) && (k !in want || want[k] != s.opts[k]) ==> !ReadsAs(want, s)
  {
  }

  lemma AllSeen(want: map<Key, string>, s: Section, seen: set<Key>)
    requires Seen(want, s, {}, seen) && s.kind.Rule? && Name !in want && Enabled !in want
    ensures |seen| == |want| <==> ReadsAs(want, s)
  {
    assert ReadsAs(want, s) ==> seen == want.Keys;
    if |seen| == |want.Keys| {
      SubsetOfSize(seen, want.Keys);
    }
  }

  // ---- Whose guest network it is ----

  /** The guest network as the files hold it: the panel's, or someone else's;
      the panel's access points that are on it, all under its names, and those
      on it under other names. */
  datatype Shape = Shape(ours: bool, foreign: bool, ifaces: seq<Section>, owned: seq<Section>, stray: seq<Section>)

  predicate OnGuest(s: Section) { GUEST in Words(s, Network) }

  predicate OwnIface(s: Section) { s.kind.WifiIface? && s.id.Own? }

  /** Another interface than the guests' sits on their bridge. */
  predicate OtherOnBridge(s: Section) {
    s.kind.Interface? && s.id != Guest && (Opt(s, DeviceKey) == BRIDGE || BRIDGE in Words(s, Ifname))
  }

  predicate Made(network: seq<Section>) {
    var dev, iface := Find(network, Own(Dev)), Find(network, Guest);
    dev.Some? && dev.value.kind.BridgeKind? && Opt(dev.value, Name) == BRIDGE
    && iface.Some? && iface.value.kind.Interface? && Opt(iface.value, DeviceKey) == BRIDGE
  }

  predicate FirewallTraces(firewall: seq<Section>) {
    exists s :: s in firewall
      && (s.id == Guest || (s.id.Own? && s.id.role in SECTIONS) || (s.kind.Zone? && Opt(s, Name) == GUEST))
  }

  predicate DhcpTraces(dhcp: seq<Section>) {
    exists s :: s in dhcp && s.id == Guest
  }

  /** Only the panel's access points are left, as after an emergency restore. */
  predicate Orphaned(network: seq<Section>, firewall: seq<Section>, wireless: seq<Section>, dhcp: seq<Section>) {
    && Find(network, Own(Dev)).None? && Find(network, Guest).None?
    && (exists s :: s in wireless && OwnIface(s) && Opt(s, Network) == GUEST)
    && (forall s :: s in wireless && s.id.Own? ==> s.kind.WifiIface? && Opt(s, Network) == GUEST)
    && !FirewallTraces(firewall) && !DhcpTraces(dhcp)
  }

  /** Anything under the panel's names, or in their place. */
  predicate Traces(network: seq<Section>, firewall: seq<Section>, wireless: seq<Section>, dhcp: seq<Section>) {
    || Find(network, Guest).Some? || Find(network, Own(Dev)).Some?
    || FirewallTraces(firewall) || DhcpTraces(dhcp)
    || (exists s :: s in wireless && (s.id.Own? || (s.kind.WifiIface? && OnGuest(s))))
    || (exists s :: s in network && ((s.kind.BridgeKind? && Opt(s, Name) == BRIDGE) || OtherOnBridge(s)))
  }

  datatype Part = Owned | Attached | Stray

  predicate Belongs(part: Part, s: Section) {
    match part
    case Owned => OwnIface(s)
    case Attached => OwnIface(s) && Opt(s, Network) == GUEST
    case Stray => s.kind.WifiIface? && !s.id.Own? && OnGuest(s)
  }

  function In(part: Part, wireless: seq<Section>): (r: seq<Section>)
    ensures forall s :: s in r <==> s in wireless && Belongs(part, s)
  {
    if wireless == [] then []
    else (if Belongs(part, wireless[0]) then [wireless[0]] else []) + In(part, wireless[1..])
  }

  function GuestShape(network: seq<Section>, firewall: seq<Section>, wireless: seq<Section>, dhcp: seq<Section>): Shape {
    if Made(network) || Orphaned(network, firewall, wireless, dhcp)
    then Shape(true, false, In(Attached, wireless), In(Owned, wireless), In(Stray, wireless))
    else Shape(false, Traces(network, firewall, wireless, dhcp), [], [], [])
  }

  lemma {:induction false} NoneBelong(part: Part, wireless: seq<Section>)
    requires forall s :: s in wireless ==> !Belongs(part, s)
    ensures In(part, wireless) == []
  {
    hide Belongs;
    if wireless != [] {
      assert wireless[0] in wireless;
      NoneBelong(part, wireless[1..]);
    }
  }

  lemma {:induction false} OneMore(part: Part, wireless: seq<Section>, s: Section)
    ensures In(part, wireless + [s]) == In(part, wireless) + if Belongs(part, s) then [s] else []
  {
    hide Belongs;
    if wireless == [] {
      assert [] + [s] == [s] && [s][1..] == [];
    } else {
      assert (wireless + [s])[1..] == wireless[1..] + [s];
      OneMore(part, wireless[1..], s);
    }
  }

  method ReadGuestShape(network: seq<Section>, firewall: seq<Section>, wireless: seq<Section>, dhcp: seq<Section>)
    returns (g: Shape)
    ensures g == GuestShape(network, firewall, wireless, dhcp)
  {
    hide Made, OnGuest, Opt, OtherOnBridge;
    var ours := Made(network);
    if !ours && Find(network, Own(Dev)).None? && Find(network, Guest).None? {
      var orphans, clean := 0, true;
      for k := 0 to |wireless|
        invariant orphans > 0 <==> exists j :: 0 <= j < k && OwnIface(wireless[j]) && Opt(wireless[j], Network) == GUEST
        invariant orphans >= 0
        invariant clean <==> forall j :: 0 <= j < k && wireless[j].id.Own? ==> wireless[j].kind.WifiIface? && Opt(wireless[j], Network) == GUEST
      {
        if wireless[k].id.Own? {
          if wireless[k].kind.WifiIface? && Opt(wireless[k], Network) == GUEST {
            orphans := orphans + 1;
          } else {
            clean := false;
          }
        }
      }
      ours := orphans > 0 && clean && !FirewallTraces(firewall) && !DhcpTraces(dhcp);
    }
    if !ours {
      return Shape(false, Traces(network, firewall, wireless, dhcp), [], [], []);
    }
    g := Shape(true, false, [], [], []);
    for k := 0 to |wireless|
      invariant g.ours && !g.foreign
      invariant g.owned == In(Owned, wireless[..k]) && g.ifaces == In(Attached, wireless[..k]) && g.stray == In(Stray, wireless[..k])
    {
      var s := wireless[k];
      assert wireless[..k + 1] == wireless[..k] + [s];
      OneMore(Owned, wireless[..k], s);
      OneMore(Attached, wireless[..k], s);
      OneMore(Stray, wireless[..k], s);
      if s.kind.WifiIface? {
        if !s.id.Own? {
          if OnGuest(s) {
            g := g.(stray := g.stray + [s]);
          }
        } else {
          g := g.(owned := g.owned + [s]);
          if Opt(s, Network) == GUEST {
            g := g.(ifaces := g.ifaces + [s]);
          }
        }
      }
    }
    assert wireless[..|wireless|] == wireless;
  }
}
