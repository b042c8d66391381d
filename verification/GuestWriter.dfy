/** Writing a guest network into the draft (internal/adapters/openwrt/wifi_guest.go):
    the commands one by one, what they leave behind when all succeed, and what
    is taken back when one fails. */
module GuestWriter {
  import opened Outcomes
  import opened Text
  import opened Prefixes
  import opened UciSections
  import opened GuestRecipe
  import opened GuestChecks
  import opened GuestSubnet

  datatype File = NetworkFile | WirelessFile | DhcpFile | FirewallFile

  datatype Config = Config(network: seq<Section>, wireless: seq<Section>, dhcp: seq<Section>, firewall: seq<Section>) {
    function At(f: File): seq<Section> {
      match f
      case NetworkFile => network
      case WirelessFile => wireless
      case DhcpFile => dhcp
      case FirewallFile => firewall
    }

    function With(f: File, sections: seq<Section>): (c: Config)
      ensures c.At(f) == sections
    {
      match f
      case NetworkFile => this.(network := sections)
      case WirelessFile => this.(wireless := sections)
      case DhcpFile => this.(dhcp := sections)
      case FirewallFile => this.(firewall := sections)
    }
  }

  /** One command: a section, an option of one, an item of a list. */
  datatype Edit = Make(file: File, id: Id, kind: Kind)
                | Put(file: File, id: Id, key: Key, value: string)
                | Append(file: File, id: Id, key: Key, value: string)

  function Edited(s: Section, e: Edit): Section {
    match e
    case Make(_, _, kind) => s.(kind := kind)
    case Put(_, _, key, value) => s.(opts := s.opts[key := value])
    case Append(_, _, key, value) => s.(opts := s.opts[key := if key in s.opts then s.opts[key] + (" " + value) else value])
  }

  /** The section named is changed; one that is not there is only made. */
  function EditedIn(sections: seq<Section>, e: Edit): seq<Section> {
    if Find(sections, e.id).None? then
      if e.Make? then sections + [Section(e.id, e.kind, map[])] else sections
    else seq(|sections|, i requires 0 <= i < |sections| => if sections[i].id == e.id then Edited(sections[i], e) else sections[i])
  }

  function Apply(c: Config, e: Edit): Config { c.With(e.file, EditedIn(c.At(e.file), e)) }

  function ApplyAll(c: Config, edits: seq<Edit>): Config
    decreases |edits|
  {
    if edits == [] then c else ApplyAll(Apply(c, edits[0]), edits[1..])
  }

  lemma {:induction false} ApplyParts(c: Config, a: seq<Edit>, b: seq<Edit>)
    ensures ApplyAll(c, a + b) == ApplyAll(ApplyAll(c, a), b)
    decreases |a|
  {
    hide Apply;
    if a == [] {
      assert a + b == b;
    } else {
      assert (a + b)[1..] == a[1..] + b;
      ApplyParts(Apply(c, a[0]), a[1..], b);
    }
  }

  /** The commands of one file change that file alone. */
  function EditAll(sections: seq<Section>, edits: seq<Edit>): seq<Section>
    decreases |edits|
  {
    if edits == [] then sections else EditAll(EditedIn(sections, edits[0]), edits[1..])
  }

  lemma {:induction false} EditParts(sections: seq<Section>, a: seq<Edit>, b: seq<Edit>)
    ensures EditAll(sections, a + b) == EditAll(EditAll(sections, a), b)
    decreases |a|
  {
    hide EditedIn;
    if a == [] {
      assert a + b == b;
    } else {
      assert (a + b)[1..] == a[1..] + b;
      EditParts(EditedIn(sections, a[0]), a[1..], b);
    }
  }

  predicate OfFile(f: File, edits: seq<Edit>) { forall e :: e in edits ==> e.file == f }

  lemma {:induction false} ApplyOneFile(c: Config, f: File, edits: seq<Edit>)
    requires OfFile(f, edits)
    ensures ApplyAll(c, edits) == c.With(f, EditAll(c.At(f), edits))
    decreases |edits|
  {
    hide EditedIn;
    if edits != [] {
      assert edits[0] in edits;
      ApplyOneFile(Apply(c, edits[0]), f, edits[1..]);
    }
  }

  // ---- One section ----

  type Options = seq<(Key, string)>

  function Puts(f: File, id: Id, options: Options): (edits: seq<Edit>)
    ensures OfFile(f, edits) && forall e :: e in edits ==> e.id == id
  {
    if options == [] then [] else [Put(f, id, options[0].0, options[0].1)] + Puts(f, id, options[1..])
  }

  function Written(m: map<Key, string>, options: Options): map<Key, string>
    decreases |options|
  {
    if options == [] then m else Written(m[options[0].0 := options[0].1], options[1..])
  }

  predicate Fresh(sections: seq<Section>, id: Id) { forall s :: s in sections ==> s.id != id }

  /** The commands that make a section and give it its options. */
  function SectionEdits(f: File, id: Id, kind: Kind, options: Options): (edits: seq<Edit>)
    ensures OfFile(f, edits) && forall e :: e in edits ==> e.id == id
  {
    [Make(f, id, kind)] + Puts(f, id, options)
  }

  lemma EditLast(before: seq<Section>, s: Section, after: seq<Section>, e: Edit)
    requires Fresh(before, s.id) && Fresh(after, s.id) && e.id == s.id
    ensures EditedIn(before + [s] + after, e) == before + [Edited(s, e)] + after
  {
    hide Edited, Find;
    var file := before + [s] + after;
    assert file[|before|] == s && s in file;
    assert Find(file, e.id).Some?;
    forall i | 0 <= i < |file| ensures EditedIn(file, e)[i] == (before + [Edited(s, e)] + after)[i] {
      assert i < |before| ==> file[i] == before[i];
      assert i > |before| ==> file[i] == after[i - |before| - 1];
    }
  }

  lemma {:induction false} PutsDone(before: seq<Section>, s: Section, f: File, options: Options)
    requires Fresh(before, s.id)
    ensures EditAll(before + [s], Puts(f, s.id, options)) == before + [s.(opts := Written(s.opts, options))]
    decreases |options|
  {
    if options == [] {
      assert s.(opts := Written(s.opts, options)) == s;
    } else {
      var e := Put(f, s.id, options[0].0, options[0].1);
      EditLast(before, s, [], e);
      assert before + [s] + [] == before + [s] && before + [Edited(s, e)] + [] == before + [Edited(s, e)];
      hide EditedIn;
      PutsDone(before, Edited(s, e), f, options[1..]);
      assert Puts(f, s.id, options)[1..] == Puts(f, s.id, options[1..]);
    }
  }

  lemma SectionMade(sections: seq<Section>, f: File, id: Id, kind: Kind, options: Options)
    requires Fresh(sections, id)
    ensures EditAll(sections, SectionEdits(f, id, kind, options)) == sections + [Section(id, kind, Written(map[], options))]
  {
    var s := Section(id, kind, map[]);
    var e := Make(f, id, kind);
    assert EditedIn(sections, e) == sections + [s];
    hide EditedIn;
    PutsDone(sections, s, f, options);
    assert SectionEdits(f, id, kind, options)[1..] == Puts(f, id, options);
  }

  lemma WrittenStep(m: map<Key, string>, first: (Key, string), rest: Options)
    ensures Written(m, [first] + rest) == Written(m[first.0 := first.1], rest)
  {
    assert ([first] + rest)[1..] == rest;
  }

  lemma Written2(m: map<Key, string>, a: (Key, string), b: (Key, string))
    ensures Written(m, [a, b]) == m[a.0 := a.1][b.0 := b.1]
  {
    WrittenStep(m, a, [b]);
    WrittenStep(m[a.0 := a.1], b, []);
    assert [a, b] == [a] + [b] && [b] == [b] + [];
  }

  lemma Written3(m: map<Key, string>, a: (Key, string), b: (Key, string), c: (Key, string))
    ensures Written(m, [a, b, c]) == m[a.0 := a.1][b.0 := b.1][c.0 := c.1]
  {
    WrittenStep(m, a, [b, c]);
    assert [a, b, c] == [a] + [b, c];
    Written2(m[a.0 := a.1], b, c);
  }

  lemma Written5(m: map<Key, string>, a: (Key, string), b: (Key, string), c: (Key, string), d: (Key, string), e: (Key, string))
    ensures Written(m, [a, b, c, d, e]) == m[a.0 := a.1][b.0 := b.1][c.0 := c.1][d.0 := d.1][e.0 := e.1]
  {
    WrittenStep(m, a, [b, c, d, e]);
    assert [a, b, c, d, e] == [a] + [b, c, d, e];
    WrittenStep(m[a.0 := a.1], b, [c, d, e]);
    assert [b, c, d, e] == [b] + [c, d, e];
    Written3(m[a.0 := a.1][b.0 := b.1], c, d, e);
  }

  lemma Written6(m: map<Key, string>, a: (Key, string), b: (Key, string), c: (Key, string), d: (Key, string), e: (Key, string), f: (Key, string))
    ensures Written(m, [a, b, c, d, e, f]) == m[a.0 := a.1][b.0 := b.1][c.0 := c.1][d.0 := d.1][e.0 := e.1][f.0 := f.1]
  {
    WrittenStep(m, a, [b, c, d, e, f]);
    assert [a, b, c, d, e, f] == [a] + [b, c, d, e, f];
    Written5(m[a.0 := a.1], b, c, d, e, f);
  }

  function Appends(f: File, id: Id, key: Key, values: seq<string>): (edits: seq<Edit>)
    ensures OfFile(f, edits) && forall e :: e in edits ==> e.id == id
  {
    if values == [] then [] else [Append(f, id, key, values[0])] + Appends(f, id, key, values[1..])
  }

  lemma {:induction false} AppendsDone(before: seq<Section>, s: Section, after: seq<Section>, f: File, key: Key, done: seq<string>, values: seq<string>)
    requires Fresh(before, s.id) && Fresh(after, s.id) && done + values != []
    requires if done == [] then key !in s.opts else key in s.opts && s.opts[key] == Join(done)
    ensures EditAll(before + [s] + after, Appends(f, s.id, key, values)) ==
      before + [s.(opts := s.opts[key := Join(done + values)])] + after
    decreases |values|
  {
    hide EditedIn, Join;
    if values == [] {
      assert done + values == done && s.opts[key := Join(done)] == s.opts;
    } else {
      var e := Append(f, s.id, key, values[0]);
      EditLast(before, s, after, e);
      AppendOne(s, e, done);
      var s', more := Edited(s, e), done + [values[0]];
      hide Edited;
      AppendsDone(before, s', after, f, key, more, values[1..]);
      assert more + values[1..] == done + values;
      assert s'.opts[key := Join(done + values)] == s.opts[key := Join(done + values)];
      assert Appends(f, s.id, key, values)[1..] == Appends(f, s.id, key, values[1..]);
    }
  }

  lemma AppendOne(s: Section, e: Edit, done: seq<string>)
    requires e.Append?
    requires if done == [] then e.key !in s.opts else e.key in s.opts && s.opts[e.key] == Join(done)
    ensures Edited(s, e) == s.(opts := s.opts[e.key := Join(done + [e.value])])
  {
    if done != [] {
      JoinOneMore(done, e.value);
    } else {
      assert done + [e.value] == [e.value];
    }
  }

  // ---- The recipe ----

  /** What is asked for, once checked: the radios, the name, the security as
      hostapd spells it and the password. */
  datatype Request = Request(radios: seq<string>, ssid: string, encryption: string, password: string)

  function DevOptions(): Options { [(Name, BRIDGE), (Type, "bridge"), (BridgeEmpty, "1")] }

  function IfaceOptions(ip: string): Options {
    [(DeviceKey, BRIDGE), (Proto, "static"), (IpAddr, ip), (Netmask, MASK24), (Ip6Assign, "64")]
  }

  function RadioOptions(radio: string, q: Request): Options {
    [(DeviceKey, radio), (Mode, "ap"), (Network, GUEST), (Ssid, q.ssid), (Encryption, q.encryption), (Password, q.password),
     (Isolate, "1"), (BridgeIsolate, "1")]
  }

  function DhcpOptions(): Options {
    [(InterfaceKey, GUEST), (OtherKey("start"), "100"), (OtherKey("limit"), "150"), (OtherKey("leasetime"), "2h"),
     (OtherKey("dhcpv4"), "server"), (OtherKey("dhcpv6"), "server"), (OtherKey("ra"), "server"), (OtherKey("ra_slaac"), "1")]
  }

  function ZoneOptions(): Options {
    [(Name, GUEST), (Network, GUEST), (Input, "REJECT"), (Output, "ACCEPT"), (Forward, "REJECT")]
  }

  function WanOptions(wan: string): Options { [(Src, GUEST), (Dest, wan)] }

  function RuleOrder(): seq<Role> { [Dhcp, Dns, Icmpv6, Dhcpv6, NoPrivate4, NoPrivate6] }

  function RuleOptions(r: Role, wan: string): Options
    requires r in RULES
  {
    match r
    case Dhcp => [(Name, RuleName(r)), (Src, GUEST), (Proto, "udp"), (DestPort, "67-68"), (Target, "ACCEPT")]
    case Dns => [(Name, RuleName(r)), (Src, GUEST), (Proto, "tcp udp"), (DestPort, "53"), (Target, "ACCEPT")]
    case Icmpv6 => [(Name, RuleName(r)), (Src, GUEST), (Proto, "icmp"), (Family, "ipv6"), (Target, "ACCEPT")]
    case Dhcpv6 => [(Name, RuleName(r)), (Src, GUEST), (Proto, "udp"), (Family, "ipv6"), (DestPort, "547"), (Target, "ACCEPT")]
    case NoPrivate4 => [(Name, RuleName(r)), (Src, GUEST), (Dest, wan), (Family, "ipv4"), (Proto, "all"), (Target, "REJECT")]
    case _ => [(Name, RuleName(r)), (Src, GUEST), (Dest, wan), (Family, "ipv6"), (Proto, "all"), (Target, "REJECT")]
  }

  function ListKey(r: Role): Key { if r == Icmpv6 then IcmpType else DestIp }

  /** The items a rule lists, none for most. */
  function ListWords(r: Role): seq<string> {
    match r
    case Icmpv6 => ICMP_WORDS
    case NoPrivate4 => PRIVATE4_WORDS
    case NoPrivate6 => PRIVATE6_WORDS
    case _ => []
  }

  function RuleEdits(roles: seq<Role>, wan: string): (edits: seq<Edit>)
    requires forall r :: r in roles ==> r in RULES
    ensures OfFile(FirewallFile, edits) && forall e :: e in edits ==> e.id.Own? && e.id.role in roles
  {
    if roles == [] then []
    else SectionEdits(FirewallFile, Own(roles[0]), Rule, RuleOptions(roles[0], wan)) + RuleEdits(roles[1..], wan)
  }

  function ListEdits(roles: seq<Role>): (edits: seq<Edit>)
    ensures OfFile(FirewallFile, edits) && forall e :: e in edits ==> e.id.Own? && e.id.role in roles
  {
    if roles == [] then []
    else Appends(FirewallFile, Own(roles[0]), ListKey(roles[0]), ListWords(roles[0])) + ListEdits(roles[1..])
  }

  function RadioEdits(radios: seq<string>, q: Request): (edits: seq<Edit>)
    ensures OfFile(WirelessFile, edits) && forall e :: e in edits ==> e.id.Own? && e.id.role.Radio?
  {
    if radios == [] then []
    else SectionEdits(WirelessFile, Own(Radio(radios[0])), WifiIface, RadioOptions(radios[0], q)) + RadioEdits(radios[1..], q)
  }

  /** Every command of one guest network, in order: the sections, then the
      items of the lists. */
  function GuestEdits(ip: string, wan: string, renumber: bool, q: Request): seq<Edit> {
    RulesInOrder();
    SectionEdits(NetworkFile, Own(Dev), BridgeKind, DevOptions())
    + (SectionEdits(NetworkFile, Guest, Interface, IfaceOptions(ip))
    + ((if renumber then [Put(NetworkFile, Lan, Ip6Assign, "64")] else [])
    + (RadioEdits(q.radios, q)
    + (SectionEdits(DhcpFile, Guest, DhcpPool, DhcpOptions())
    + (SectionEdits(FirewallFile, Guest, Zone, ZoneOptions())
    + (SectionEdits(FirewallFile, Own(Wan), Forwarding, WanOptions(wan))
    + (RuleEdits(RuleOrder(), wan)
    + ListEdits(RuleOrder()))))))))
  }

  lemma RulesInOrder()
    ensures forall r :: r in RuleOrder() <==> r in RULES
    ensures forall i, j :: 0 <= i < j < |RuleOrder()| ==> RuleOrder()[i] != RuleOrder()[j]
  {
    assert RuleOrder()[0] == Dhcp && RuleOrder()[1] == Dns && RuleOrder()[2] == Icmpv6 && RuleOrder()[3] == Dhcpv6;
    assert RuleOrder()[4] == NoPrivate4 && RuleOrder()[5] == NoPrivate6;
  }

  // ---- What it leaves ----

  function DevSection(): Section { Section(Own(Dev), BridgeKind, Written(map[], DevOptions())) }
  function IfaceSection(ip: string): Section { Section(Guest, Interface, Written(map[], IfaceOptions(ip))) }
  function DhcpSection(): Section { Section(Guest, DhcpPool, Written(map[], DhcpOptions())) }
  function ZoneSection(): Section { Section(Guest, Zone, Written(map[], ZoneOptions())) }
  function WanSection(wan: string): Section { Section(Own(Wan), Forwarding, Written(map[], WanOptions(wan))) }

  function RadioSection(radio: string, q: Request): Section {
    Section(Own(Radio(radio)), WifiIface, Written(map[], RadioOptions(radio, q)))
  }

  function RuleMade(r: Role, wan: string): Section
    requires r in RULES
  {
    Section(Own(r), Rule, Written(map[], RuleOptions(r, wan)))
  }

  function RuleDone(r: Role, wan: string): Section
    requires r in RULES
  {
    var s := RuleMade(r, wan);
    if ListWords(r) == [] then s else s.(opts := s.opts[ListKey(r) := Join(ListWords(r))])
  }

  function RadioSections(radios: seq<string>, q: Request): (r: seq<Section>)
    ensures |r| == |radios| && forall i :: 0 <= i < |radios| ==> r[i] == RadioSection(radios[i], q)
  {
    if radios == [] then [] else [RadioSection(radios[0], q)] + RadioSections(radios[1..], q)
  }

  function RuleSections(roles: seq<Role>, wan: string, done: bool): (s: seq<Section>)
    requires forall r :: r in roles ==> r in RULES
    ensures |s| == |roles| && forall i :: 0 <= i < |roles| ==> s[i] == if done then RuleDone(roles[i], wan) else RuleMade(roles[i], wan)
  {
    if roles == [] then []
    else [if done then RuleDone(roles[0], wan) else RuleMade(roles[0], wan)] + RuleSections(roles[1..], wan, done)
  }

  function Renumbered(network: seq<Section>, renumber: bool): seq<Section> {
    if renumber then EditedIn(network, Put(NetworkFile, Lan, Ip6Assign, "64")) else network
  }

  /** The files with the guest network in them. */
  function WithGuests(c: Config, ip: string, wan: string, renumber: bool, q: Request): Config {
    RulesInOrder();
    Config(Renumbered(c.network, renumber) + [DevSection(), IfaceSection(ip)],
           c.wireless + RadioSections(q.radios, q),
           c.dhcp + [DhcpSection()],
           c.firewall + [ZoneSection(), WanSection(wan)] + RuleSections(RuleOrder(), wan, true))
  }

  /** Nothing is there under the panel's names. */
  predicate NothingThere(c: Config) {
    && Fresh(c.network, Own(Dev)) && Fresh(c.network, Guest) && Fresh(c.dhcp, Guest)
    && (forall s :: s in c.wireless ==> !s.id.Own?)
    && Fresh(c.firewall, Guest) && (forall s :: s in c.firewall && s.id.Own? ==> s.id.role !in SECTIONS)
  }

  predicate Distinct(radios: seq<string>) { forall i, j :: 0 <= i < j < |radios| ==> radios[i] != radios[j] }

  lemma {:induction false} RadiosMade(wireless: seq<Section>, radios: seq<string>, q: Request)
    requires Distinct(radios) && forall r :: r in radios ==> Fresh(wireless, Own(Radio(r)))
    ensures EditAll(wireless, RadioEdits(radios, q)) == wireless + RadioSections(radios, q)
    decreases |radios|
  {
    hide RadioOptions, SectionEdits, Written, EditAll, Fresh, OfFile;
    if radios == [] {
      NoEdits(wireless);
      assert wireless + [] == wireless;
    } else {
      var r, rest := radios[0], radios[1..];
      var s := RadioSection(r, q);
      EditParts(wireless, SectionEdits(WirelessFile, Own(Radio(r)), WifiIface, RadioOptions(r, q)), RadioEdits(rest, q));
      SectionMade(wireless, WirelessFile, Own(Radio(r)), WifiIface, RadioOptions(r, q));
      NextRadio(wireless, radios, q);
      RadiosMade(wireless + [s], rest, q);
      Regroup(wireless, [s], RadioSections(rest, q));
    }
  }

  lemma NextRadio(wireless: seq<Section>, radios: seq<string>, q: Request)
    requires radios != [] && Distinct(radios) && forall r :: r in radios ==> Fresh(wireless, Own(Radio(r)))
    ensures Distinct(radios[1..]) && Fresh(wireless, Own(Radio(radios[0])))
    ensures forall r :: r in radios[1..] ==> Fresh(wireless + [RadioSection(radios[0], q)], Own(Radio(r)))
  {
    hide Written, RadioOptions;
    var rest := radios[1..];
    assert forall i :: 0 <= i < |rest| ==> rest[i] == radios[i + 1];
    forall x | x in rest ensures Fresh(wireless + [RadioSection(radios[0], q)], Own(Radio(x))) {
      assert Fresh(wireless, Own(Radio(x)));
      var k :| 0 <= k < |rest| && rest[k] == x;
      assert radios[0] != radios[k + 1];
    }
  }

  lemma Regroup<T>(a: seq<T>, b: seq<T>, c: seq<T>)
    ensures a + b + c == a + (b + c)
  {
  }

  lemma NoEdits(sections: seq<Section>)
    ensures EditAll(sections, []) == sections
  {
  }

  predicate DistinctRoles(roles: seq<Role>) { forall i, j :: 0 <= i < j < |roles| ==> roles[i] != roles[j] }

  predicate NewRules(firewall: seq<Section>, roles: seq<Role>) {
    DistinctRoles(roles) && forall r :: r in roles ==> r in RULES && Fresh(firewall, Own(r))
  }

  lemma NextRule(firewall: seq<Section>, roles: seq<Role>, s: Section)
    requires roles != [] && NewRules(firewall, roles) && s.id == Own(roles[0])
    ensures NewRules(firewall + [s], roles[1..]) && (forall r :: r in roles[1..] ==> r != roles[0])
    ensures roles[0] in RULES && Fresh(firewall, Own(roles[0]))
  {
    var rest := roles[1..];
    assert roles[0] in roles;
    forall x | x in rest ensures x in RULES && Fresh(firewall + [s], Own(x)) && x != roles[0] {
      var k :| 0 <= k < |rest| && rest[k] == x;
      assert x == roles[k + 1] && x in roles;
      assert roles[0] != roles[k + 1];
    }
    assert forall i :: 0 <= i < |rest| ==> rest[i] == roles[i + 1];
  }

  lemma InOrder(firewall: seq<Section>, roles: seq<Role>)
    requires NewRules(firewall, roles)
    ensures forall r :: r in roles ==> r in RULES
  {
  }

  lemma MadeIs(r: Role, wan: string)
    requires r in RULES
    ensures RuleMade(r, wan).id == Own(r)
    ensures RuleMade(r, wan) == Section(Own(r), Rule, Written(map[], RuleOptions(r, wan)))
  {
    hide Written, RuleOptions;
  }

  lemma {:induction false} RulesMade(firewall: seq<Section>, roles: seq<Role>, wan: string)
    requires NewRules(firewall, roles) && forall r :: r in roles ==> r in RULES
    ensures EditAll(firewall, RuleEdits(roles, wan)) == firewall + RuleSections(roles, wan, false)
    decreases |roles|
  {
    hide RuleOptions, SectionEdits, Written, EditAll, Fresh, DistinctRoles, NewRules, OfFile, RuleMade;
    if roles == [] {
      NoEdits(firewall);
      assert firewall + [] == firewall;
    } else {
      var r, rest := roles[0], roles[1..];
      InOrder(firewall, roles);
      var s := RuleMade(r, wan);
      MadeIs(r, wan);
      NextRule(firewall, roles, s);
      EditParts(firewall, SectionEdits(FirewallFile, Own(r), Rule, RuleOptions(r, wan)), RuleEdits(rest, wan));
      SectionMade(firewall, FirewallFile, Own(r), Rule, RuleOptions(r, wan));
      RulesMade(firewall + [s], rest, wan);
      Regroup(firewall, [s], RuleSections(rest, wan, false));
    }
  }

  lemma OneListDone(before: seq<Section>, r: Role, after: seq<Section>, wan: string)
    requires r in RULES && Fresh(before, Own(r)) && Fresh(after, Own(r))
    ensures EditAll(before + [RuleMade(r, wan)] + after, Appends(FirewallFile, Own(r), ListKey(r), ListWords(r))) ==
      before + [RuleDone(r, wan)] + after
  {
    hide RuleOptions, Written, EditedIn, Fresh;
    NoListYet(r, wan);
    var words := ListWords(r);
    if words != [] {
      AppendsDone(before, RuleMade(r, wan), after, FirewallFile, ListKey(r), [], words);
      assert [] + words == words;
    }
  }

  lemma {:induction false} ListsDone(before: seq<Section>, roles: seq<Role>, wan: string)
    requires NewRules(before, roles) && forall r :: r in roles ==> r in RULES
    ensures EditAll(before + RuleSections(roles, wan, false), ListEdits(roles)) == before + RuleSections(roles, wan, true)
    decreases |roles|
  {
    hide RuleOptions, Written, EditAll, Fresh, DistinctRoles, RuleMade, RuleDone, ListWords, ListKey, Appends, NewRules, OfFile;
    if roles == [] {
      NoEdits(before + []);
    } else {
      var r, rest := roles[0], roles[1..];
      var s, after, done := RuleMade(r, wan), RuleSections(rest, wan, false), RuleDone(r, wan);
      DoneIsNamed(r, wan);
      NextRule(before, roles, done);
      EditParts(before + RuleSections(roles, wan, false), Appends(FirewallFile, Own(r), ListKey(r), ListWords(r)), ListEdits(rest));
      Regroup(before, [s], after);
      AfterIsFresh(rest, r, wan);
      OneListDone(before, r, after, wan);
      ListsDone(before + [done], rest, wan);
      Regroup(before, [done], RuleSections(rest, wan, true));
    }
  }

  lemma DoneIsNamed(r: Role, wan: string)
    requires r in RULES
    ensures RuleDone(r, wan).id == Own(r) && RuleDone(r, wan).kind == Rule
  {
    hide Written, RuleOptions;
  }

  lemma AfterIsFresh(rest: seq<Role>, r: Role, wan: string)
    requires forall x :: x in rest ==> x in RULES && x != r
    ensures Fresh(RuleSections(rest, wan, false), Own(r))
  {
    hide Written, RuleOptions;
    var after := RuleSections(rest, wan, false);
    forall s | s in after ensures s.id != Own(r) {
      var k :| 0 <= k < |after| && after[k] == s;
      assert rest[k] in rest;
    }
  }

  /** The options of a rule's recipe before its list is written. */
  function Unlisted(r: Role, wan: string): map<Key, string>
    requires r in RULES
  {
    (if ListWords(r) == [] then Spec(r, wan) else Spec(r, wan) - {ListKey(r)})[Name := RuleName(r)]
  }

  lemma RuleMadeReads(r: Role, wan: string)
    requires r in RULES
    ensures RuleMade(r, wan).opts == Unlisted(r, wan)
  {
    hide Written, RuleName, IcmpTypes, Private4, Private6;
    var name := RuleName(r);
    match r
    case Dhcp => Written5(map[], (Name, name), (Src, GUEST), (Proto, "udp"), (DestPort, "67-68"), (Target, "ACCEPT"));
    case Dns => Written5(map[], (Name, name), (Src, GUEST), (Proto, "tcp udp"), (DestPort, "53"), (Target, "ACCEPT"));
    case Icmpv6 => Written5(map[], (Name, name), (Src, GUEST), (Proto, "icmp"), (Family, "ipv6"), (Target, "ACCEPT"));
    case Dhcpv6 =>
      Written6(map[], (Name, name), (Src, GUEST), (Proto, "udp"), (Family, "ipv6"), (DestPort, "547"), (Target, "ACCEPT"));
    case NoPrivate4 =>
      Written6(map[], (Name, name), (Src, GUEST), (Dest, wan), (Family, "ipv4"), (Proto, "all"), (Target, "REJECT"));
    case NoPrivate6 =>
      Written6(map[], (Name, name), (Src, GUEST), (Dest, wan), (Family, "ipv6"), (Proto, "all"), (Target, "REJECT"));
  }

  lemma NoListYet(r: Role, wan: string)
    requires r in RULES
    ensures ListKey(r) !in RuleMade(r, wan).opts || ListWords(r) == []
  {
    hide RuleMade, RuleName;
    RuleMadeReads(r, wan);
  }

  lemma Step(c: Config, f: File, edits: seq<Edit>, rest: seq<Edit>)
    requires OfFile(f, edits)
    ensures ApplyAll(c, edits + rest) == ApplyAll(c.With(f, EditAll(c.At(f), edits)), rest)
  {
    hide EditAll, OfFile;
    ApplyParts(c, edits, rest);
    ApplyOneFile(c, f, edits);
  }

  lemma SectionStep(c: Config, f: File, id: Id, kind: Kind, options: Options, rest: seq<Edit>)
    requires Fresh(c.At(f), id)
    ensures ApplyAll(c, SectionEdits(f, id, kind, options) + rest) ==
      ApplyAll(c.With(f, c.At(f) + [Section(id, kind, Written(map[], options))]), rest)
  {
    hide EditAll, OfFile, Fresh, SectionEdits, Written, Config.At, Config.With;
    SectionMade(c.At(f), f, id, kind, options);
    Step(c, f, SectionEdits(f, id, kind, options), rest);
  }

  lemma LanStep(network: seq<Section>, after: seq<Section>, renumber: bool)
    requires Fresh(after, Lan) && (renumber ==> Find(network, Lan).Some?)
    ensures EditAll(network + after, if renumber then [Put(NetworkFile, Lan, Ip6Assign, "64")] else []) == Renumbered(network, renumber) + after
  {
    if renumber {
      var e := Put(NetworkFile, Lan, Ip6Assign, "64");
      var f := Find(network, Lan).value;
      assert f in network + after;
      assert EditedIn(network + after, e) == EditedIn(network, e) + after;
      assert [e][1..] == [];
    }
  }

  lemma NetworkPart(c: Config, ip: string, renumber: bool, rest: seq<Edit>)
    requires Fresh(c.network, Own(Dev)) && Fresh(c.network, Guest) && (renumber ==> Find(c.network, Lan).Some?)
    ensures ApplyAll(c, SectionEdits(NetworkFile, Own(Dev), BridgeKind, DevOptions())
        + (SectionEdits(NetworkFile, Guest, Interface, IfaceOptions(ip))
        + ((if renumber then [Put(NetworkFile, Lan, Ip6Assign, "64")] else []) + rest)))
      == ApplyAll(c.(network := Renumbered(c.network, renumber) + [DevSection(), IfaceSection(ip)]), rest)
  {
    hide EditAll, SectionEdits, Written, DevOptions, IfaceOptions, Renumbered, ApplyAll;
    var lan := if renumber then [Put(NetworkFile, Lan, Ip6Assign, "64")] else [];
    var c1 := c.(network := c.network + [DevSection()]);
    var c2 := c.(network := c.network + [DevSection()] + [IfaceSection(ip)]);
    SectionStep(c, NetworkFile, Own(Dev), BridgeKind, DevOptions(), SectionEdits(NetworkFile, Guest, Interface, IfaceOptions(ip)) + (lan + rest));
    SectionStep(c1, NetworkFile, Guest, Interface, IfaceOptions(ip), lan + rest);
    Step(c2, NetworkFile, lan, rest);
    assert c2.network == c.network + [DevSection(), IfaceSection(ip)];
    LanStep(c.network, [DevSection(), IfaceSection(ip)], renumber);
  }

  lemma StillFresh(firewall: seq<Section>, wan: string)
    requires forall r :: r in SECTIONS ==> Fresh(firewall, Own(r))
    ensures Fresh(firewall + [ZoneSection()], Own(Wan))
    ensures forall r :: r in RULES ==> Fresh(firewall + [ZoneSection(), WanSection(wan)], Own(r))
  {
    hide Written, ZoneOptions, WanOptions;
    assert Fresh(firewall, Own(Wan));
    forall r | r in RULES ensures Fresh(firewall + [ZoneSection(), WanSection(wan)], Own(r)) {
      assert Fresh(firewall, Own(r));
    }
  }

  lemma FirewallPart(c: Config, roles: seq<Role>, wan: string)
    requires Fresh(c.firewall, Guest) && Fresh(c.firewall + [ZoneSection()], Own(Wan))
    requires NewRules(c.firewall + [ZoneSection(), WanSection(wan)], roles) && forall r :: r in roles ==> r in RULES
    ensures ApplyAll(c, SectionEdits(FirewallFile, Guest, Zone, ZoneOptions())
        + (SectionEdits(FirewallFile, Own(Wan), Forwarding, WanOptions(wan)) + (RuleEdits(roles, wan) + ListEdits(roles))))
      == c.(firewall := c.firewall + [ZoneSection(), WanSection(wan)] + RuleSections(roles, wan, true))
  {
    hide EditAll, SectionEdits, Written, ZoneOptions, WanOptions, RuleEdits, ListEdits, RuleSections, Fresh, OfFile, NewRules, ApplyAll;
    var c1 := c.(firewall := c.firewall + [ZoneSection()]);
    var rules := RuleEdits(roles, wan) + ListEdits(roles);
    SectionStep(c, FirewallFile, Guest, Zone, ZoneOptions(), SectionEdits(FirewallFile, Own(Wan), Forwarding, WanOptions(wan)) + rules);
    SectionStep(c1, FirewallFile, Own(Wan), Forwarding, WanOptions(wan), rules);
    assert c.firewall + [ZoneSection()] + [WanSection(wan)] == c.firewall + [ZoneSection(), WanSection(wan)];
    RulesPart(c.(firewall := c.firewall + [ZoneSection(), WanSection(wan)]), roles, wan);
  }

  lemma RulesPart(c: Config, roles: seq<Role>, wan: string)
    requires NewRules(c.firewall, roles) && forall r :: r in roles ==> r in RULES
    ensures ApplyAll(c, RuleEdits(roles, wan) + ListEdits(roles)) == c.(firewall := c.firewall + RuleSections(roles, wan, true))
  {
    hide EditAll, RuleEdits, ListEdits, RuleSections, NewRules, ApplyAll;
    RulesMade(c.firewall, roles, wan);
    Step(c, FirewallFile, RuleEdits(roles, wan), ListEdits(roles));
    ListsDone(c.firewall, roles, wan);
    ApplyOneFile(c.(firewall := c.firewall + RuleSections(roles, wan, false)), FirewallFile, ListEdits(roles));
  }

  lemma AllNew(firewall: seq<Section>)
    requires forall r :: r in RULES ==> Fresh(firewall, Own(r))
    ensures NewRules(firewall, RuleOrder())
  {
    RulesInOrder();
    hide Fresh;
  }

  lemma NothingIsFresh(c: Config)
    requires NothingThere(c)
    ensures Fresh(c.network, Own(Dev)) && Fresh(c.network, Guest) && Fresh(c.dhcp, Guest) && Fresh(c.firewall, Guest)
    ensures (forall r :: r in SECTIONS ==> Fresh(c.firewall, Own(r))) && forall r :: Fresh(c.wireless, Own(Radio(r)))
  {
  }

  /** All the commands together make the guest network and change nothing
      else. */
  lemma EditsMakeGuests(c: Config, ip: string, wan: string, renumber: bool, q: Request)
    requires NothingThere(c) && Distinct(q.radios) && (renumber ==> Find(c.network, Lan).Some?)
    ensures ApplyAll(c, GuestEdits(ip, wan, renumber, q)) == WithGuests(c, ip, wan, renumber, q)
  {
    hide RuleOrder, Fresh, NewRules, EditAll, SectionEdits, Written, ApplyAll, DevOptions, IfaceOptions, ZoneOptions, WanOptions, DhcpOptions, Renumbered, RuleEdits, ListEdits, RuleSections, RadioEdits, RadioSections, OfFile, NothingThere;
    NothingIsFresh(c);
    RulesInOrder();
    StillFresh(c.firewall, wan);
    AllNew(c.firewall + [ZoneSection(), WanSection(wan)]);
    var fw := SectionEdits(FirewallFile, Guest, Zone, ZoneOptions())
      + (SectionEdits(FirewallFile, Own(Wan), Forwarding, WanOptions(wan)) + (RuleEdits(RuleOrder(), wan) + ListEdits(RuleOrder())));
    var dhcp := SectionEdits(DhcpFile, Guest, DhcpPool, DhcpOptions()) + fw;
    NetworkPart(c, ip, renumber, RadioEdits(q.radios, q) + dhcp);
    var c1 := c.(network := Renumbered(c.network, renumber) + [DevSection(), IfaceSection(ip)]);
    RadiosMade(c1.wireless, q.radios, q);
    Step(c1, WirelessFile, RadioEdits(q.radios, q), dhcp);
    var c2 := c1.(wireless := c.wireless + RadioSections(q.radios, q));
    SectionStep(c2, DhcpFile, Guest, DhcpPool, DhcpOptions(), fw);
    var c3 := c2.(dhcp := c.dhcp + [DhcpSection()]);
    FirewallPart(c3, RuleOrder(), wan);
  }
}
