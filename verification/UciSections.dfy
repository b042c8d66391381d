/** Configuration sections as `uci show` gives them
    (internal/adapters/openwrt/firewall.go): a name, a kind and options. */
module UciSections {
  import opened Outcomes
  import opened Text

  datatype Kind = Zone | Rule | Forwarding | Redirect | Interface | BridgeKind | Globals | Route
                | WifiDevice | WifiIface | Dnsmasq | DhcpPool | OtherKind(word: string)

  /** What follows "guest_" in the panel's own section names. */
  datatype Role = Dev | Wan | Dhcp | Dns | Icmpv6 | Dhcpv6 | NoPrivate4 | NoPrivate6 | Radio(name: string)

  /** A section's name: "lan", "guest", "guest_" and a role, or another. */
  datatype Id = Lan | Guest | Own(role: Role) | OtherId(word: OtherWord)

  type OtherWord = w: string | w != "lan" && w != "guest" && !HasPrefix(w, "guest_") witness "x"

  /** An option's name. */
  datatype Key = Name | Network | Input | Output | Forward | DeviceKey | Subnet | Masq | MasqSrc | MasqDest
               | Src | Dest | Target | Enabled | Reflection | ReflectionZone
               | Proto | DestPort | Family | IcmpType | DestIp
               | IpAddr | Netmask | Ip6Assign | Type | BridgeEmpty | Ifname | UlaPrefix
               | InterfaceKey | NotInterface | Isolate | BridgeIsolate | Mode | Ssid | Encryption | Password
               | RouteTarget | Band | OtherKey(word: string)

  datatype Section = Section(id: Id, kind: Kind, opts: map<Key, string>)

  /** An option, empty when it is not there. */
  function Opt(s: Section, k: Key): string {
    if k in s.opts then s.opts[k] else ""
  }

  /** No two sections of a file have one name. */
  predicate Unique(file: seq<Section>) {
    forall i, j :: 0 <= i < j < |file| ==> file[i].id != file[j].id
  }

  function Find(file: seq<Section>, id: Id): (r: Option<Section>)
    ensures r.Some? ==> r.value in file && r.value.id == id
    ensures r.None? ==> forall s :: s in file ==> s.id != id
  {
    if file == [] then None
    else if file[0].id == id then Some(file[0])
    else Find(file[1..], id)
  }

  lemma FindTheOne(file: seq<Section>, s: Section)
    requires Unique(file) && s in file
    ensures Find(file, s.id) == Some(s)
  {
    var f := Find(file, s.id).value;
    var i :| 0 <= i < |file| && file[i] == s;
    var j :| 0 <= j < |file| && file[j] == f;
    if i < j {
      assert file[i].id != file[j].id;
    } else if j < i {
      assert file[j].id != file[i].id;
    }
  }

  // ---- Words of an option ----

  function Words(s: Section, k: Key): seq<string> { Fields(Opt(s, k)) }

  predicate HasPrefix(s: string, p: string) { |p| <= |s| && s[..|p|] == p }

  function TrimPrefix(s: string, p: string): string { if HasPrefix(s, p) then s[|p|..] else s }
}
