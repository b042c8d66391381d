/** The network a guest network is given (internal/adapters/openwrt/wifi_guest.go):
    an IPv4 range free of everything the router has, and whether there is IPv6
    left for it. */
module GuestSubnet {
  import opened Outcomes
  import opened Prefixes
  import opened UciSections
  import opened GuestChecks
  import opened LanAddresses

  // ---- IPv4 ----

  /** A shorter route is a way to the internet and occupies no network here. */
  const MIN_LOCAL_BITS := 8

  /** The networks that count as taken. */
  predicate Taken(ifaces: seq<Live>, kernel: seq<Net>, n: Net) {
    n.family == V4
    && ((n in kernel && n.bits >= 8) || exists i :: i in ifaces && (n in i.addrs || (n in i.routes && n.bits >= 8)))
  }

  /** The k-th network tried: 192.168.3.0 to 192.168.254.0, then 10.3.0.0 to
      10.254.0.0. */
  function Candidate(k: nat): (c: Net)
    requires k < 504
    ensures c.family == V4 && c.bits == 24 && c.Aligned()
  {
    WordSize();
    SizeOf24();
    var addr := if k < 252 then ToUint(IPv4(192, 168, k + 3, 0)) else ToUint(IPv4(10, k - 249, 0, 0));
    assert addr % 256 == 0;
    Prefix(V4, addr, 24)
  }

  lemma SizeOf24()
    ensures Pow2(8) == 256
  {
  }

  /** The masked IPv4 networks of a list that are at least so long. */
  function Local(nets: seq<Net>, least: nat): (r: seq<Net>)
    ensures forall t :: t in r ==> t.family == V4 && t.Aligned()
  {
    if nets == [] then []
    else (if nets[0].family == V4 && nets[0].bits >= least then [nets[0].Masked()] else []) + Local(nets[1..], least)
  }

  function AllTaken(ifaces: seq<Live>): (r: seq<Net>)
    ensures forall t :: t in r ==> t.family == V4 && t.Aligned()
  {
    if ifaces == [] then []
    else Local(ifaces[0].addrs, 0) + Local(ifaces[0].routes, MIN_LOCAL_BITS) + AllTaken(ifaces[1..])
  }

  predicate Free(c: Net, taken: seq<Net>) {
    forall t :: t in taken ==> !t.Contains(c.addr) && !c.Contains(t.addr)
  }

  lemma {:induction false} LocalHas(nets: seq<Net>, least: nat, n: Net)
    requires n in nets && n.family == V4 && n.bits >= least
    ensures n.Masked() in Local(nets, least)
  {
    if nets[0] != n {
      LocalHas(nets[1..], least, n);
    }
  }

  lemma {:induction false} LocalFrom(nets: seq<Net>, least: nat, t: Net) returns (n: Net)
    requires t in Local(nets, least)
    ensures n in nets && n.family == V4 && n.bits >= least && t == n.Masked()
  {
    if nets[0].family == V4 && nets[0].bits >= least && t == nets[0].Masked() {
      n := nets[0];
    } else {
      n := LocalFrom(nets[1..], least, t);
    }
  }

  lemma {:induction false} AllTakenHas(ifaces: seq<Live>, i: Live, n: Net)
    requires i in ifaces && n.family == V4 && (n in i.addrs || (n in i.routes && n.bits >= MIN_LOCAL_BITS))
    ensures n.Masked() in AllTaken(ifaces)
  {
    if i == ifaces[0] {
      if n in i.addrs {
        LocalHas(i.addrs, 0, n);
      } else {
        LocalHas(i.routes, MIN_LOCAL_BITS, n);
      }
    } else {
      AllTakenHas(ifaces[1..], i, n);
    }
  }

  lemma {:induction false} AllTakenFrom(ifaces: seq<Live>, t: Net) returns (i: Live, n: Net)
    requires t in AllTaken(ifaces)
    ensures i in ifaces && n.family == V4 && t == n.Masked() && (n in i.addrs || (n in i.routes && n.bits >= MIN_LOCAL_BITS))
  {
    i := ifaces[0];
    if t in Local(i.addrs, 0) {
      n := LocalFrom(i.addrs, 0, t);
    } else if t in Local(i.routes, MIN_LOCAL_BITS) {
      n := LocalFrom(i.routes, MIN_LOCAL_BITS, t);
    } else {
      i, n := AllTakenFrom(ifaces[1..], t);
    }
  }

  /** It shares no address with anything taken. */
  ghost predicate Clear(c: Net, ifaces: seq<Live>, kernel: seq<Net>) {
    forall n: Net :: Taken(ifaces, kernel, n) ==> !Overlap(c, n)
  }

  /** The two-way test against the masked networks is disjointness from the
      networks themselves. */
  lemma FreeIsDisjoint(c: Net, ifaces: seq<Live>, kernel: seq<Net>)
    requires c.family == V4 && c.Aligned()
    ensures Free(c, Local(kernel, MIN_LOCAL_BITS) + AllTaken(ifaces)) <==> Clear(c, ifaces, kernel)
  {
    hide Prefix.Contains, Prefix.Masked, Prefix.Aligned, Overlap;
    var taken := Local(kernel, MIN_LOCAL_BITS) + AllTaken(ifaces);
    if Free(c, taken) {
      forall n: Net | Taken(ifaces, kernel, n) ensures !Overlap(c, n) {
        if n in kernel && n.bits >= MIN_LOCAL_BITS {
          LocalHas(kernel, MIN_LOCAL_BITS, n);
        } else {
          var i :| i in ifaces && (n in i.addrs || (n in i.routes && n.bits >= MIN_LOCAL_BITS));
          AllTakenHas(ifaces, i, n);
        }
        assert n.Masked() in taken;
        OverlapByMask(c, n);
      }
    }
    if Clear(c, ifaces, kernel) {
      forall t | t in taken ensures !t.Contains(c.addr) && !c.Contains(t.addr) {
        var n: Net;
        if t in Local(kernel, MIN_LOCAL_BITS) {
          n := LocalFrom(kernel, MIN_LOCAL_BITS, t);
        } else {
          var i: Live;
          i, n := AllTakenFrom(ifaces, t);
        }
        assert Taken(ifaces, kernel, n);
        OverlapByMask(c, n);
      }
    }
  }

  lemma OverlapByMask(c: Net, n: Net)
    requires c.family == V4 == n.family && c.Aligned()
    ensures Overlap(c, n) <==> n.Masked().Contains(c.addr) || c.Contains(n.Masked().addr)
  {
    hide Prefix.Contains, Prefix.Masked;
    OverlapIsBaseContainment(c, n.Masked());
    if Overlap(c, n) {
      var a: nat :| c.Contains(a) && n.Contains(a);
      MaskedSame(n, a);
    }
    if Overlap(c, n.Masked()) {
      var a: nat :| c.Contains(a) && n.Masked().Contains(a);
      MaskedSame(n, a);
    }
  }

  lemma LocalStep(nets: seq<Net>, k: nat, least: nat)
    requires k < |nets|
    ensures Local(nets[k..], least) ==
      (if nets[k].family == V4 && nets[k].bits >= least then [nets[k].Masked()] else []) + Local(nets[k + 1..], least)
  {
    hide Prefix.Masked, Prefix.Aligned;
    assert nets[k..][1..] == nets[k + 1..];
  }

  lemma AllTakenStep(ifaces: seq<Live>, k: nat)
    requires k < |ifaces|
    ensures AllTaken(ifaces[k..]) ==
      Local(ifaces[k].addrs, 0) + Local(ifaces[k].routes, MIN_LOCAL_BITS) + AllTaken(ifaces[k + 1..])
  {
    hide Local, Prefix.Aligned;
    assert ifaces[k..][1..] == ifaces[k + 1..];
  }

  method CollectRoutes(kernel: seq<Net>) returns (taken: seq<Net>)
    ensures taken == Local(kernel, MIN_LOCAL_BITS)
  {
    hide Local, Prefix.Masked, Prefix.Aligned, Prefix.Valid, Align, Pow2;
    taken := [];
    LocalEnds(kernel, MIN_LOCAL_BITS);
    for k := 0 to |kernel|
      invariant taken + Local(kernel[k..], MIN_LOCAL_BITS) == Local(kernel, MIN_LOCAL_BITS)
    {
      LocalStep(kernel, k, MIN_LOCAL_BITS);
      if kernel[k].family == V4 && kernel[k].bits >= MIN_LOCAL_BITS {
        taken := taken + [kernel[k].Masked()];
      }
    }
  }

  lemma LocalEnds(nets: seq<Net>, least: nat)
    ensures Local(nets[0..], least) == Local(nets, least) && Local(nets[|nets|..], least) == []
  {
    assert nets[0..] == nets && nets[|nets|..] == [];
  }

  method CollectTaken(ifaces: seq<Live>, kernel: seq<Net>) returns (taken: seq<Net>)
    ensures taken == Local(kernel, MIN_LOCAL_BITS) + AllTaken(ifaces)
  {
    hide Local;
    taken := CollectRoutes(kernel);
    for k := 0 to |ifaces|
      invariant taken + AllTaken(ifaces[k..]) == Local(kernel, MIN_LOCAL_BITS) + AllTaken(ifaces)
    {
      hide AllTaken;
      AllTakenStep(ifaces, k);
      taken := taken + (Local(ifaces[k].addrs, 0) + Local(ifaces[k].routes, MIN_LOCAL_BITS));
    }
    assert ifaces[|ifaces|..] == [];
  }

  /** The first of the networks tried that overlaps nothing taken. */
  ghost predicate IsFirstClear(c: Net, ifaces: seq<Live>, kernel: seq<Net>) {
    Clear(c, ifaces, kernel)
    && exists k: nat :: k < 504 && c == Candidate(k) && forall j: nat :: j < k ==> !Clear(Candidate(j), ifaces, kernel)
  }

  /** Each of these networks is tried, those of 192.168 first. */
  lemma Tried(x: nat)
    requires 3 <= x <= 254
    ensures Candidate(x - 3).addr == ToUint(IPv4(192, 168, x, 0)) && Candidate(249 + x).addr == ToUint(IPv4(10, x, 0, 0))
  {
  }

  /** The first of the networks tried that overlaps nothing taken; none exactly
      when each of them overlaps something. */
  method FreeGuestSubnet(ifaces: seq<Live>, kernel: seq<Net>) returns (r: Option<Net>)
    ensures r.Some? ==> Clear(r.value, ifaces, kernel)
    ensures r.Some? ==> IsFirstClear(r.value, ifaces, kernel)
    ensures r.None? ==> forall k: nat :: k < 504 ==> !Clear(Candidate(k), ifaces, kernel)
  {
    hide Clear, Candidate, Free, Prefix.Aligned, Local, AllTaken;
    var taken := CollectTaken(ifaces, kernel);
    for k := 0 to 504
      invariant forall j: nat :: j < k ==> !Clear(Candidate(j), ifaces, kernel)
    {
      FreeIsDisjoint(Candidate(k), ifaces, kernel);
      if Free(Candidate(k), taken) {
        return Some(Candidate(k));
      }
    }
    return None;
  }

  // ---- IPv6 ----

  /** How many /64s a prefix holds. */
  function Exact(mask: int): nat {
    if mask <= 0 || mask > 64 then 0 else Pow2(64 - mask)
  }

  /** The same, not counting further than a /48 holds. */
  function Capacity(mask: int): nat {
    if mask <= 0 || mask > 64 then 0 else if mask < 48 then Pow2(16) else Pow2(64 - mask)
  }

  function Assign(s: Section): int {
    var n := ParseInt(Opt(s, Ip6Assign));
    if n.None? then 0 else n.value
  }

  predicate TakesPart(s: Section) { s.kind.Interface? && s.id != Lan && s.id != Guest }

  /** What the other interfaces take together, counted by `count`. */
  function Others(network: seq<Section>, exact: bool): nat {
    if network == [] then 0
    else
      (if TakesPart(network[0]) then (if exact then Exact(Assign(network[0])) else Capacity(Assign(network[0]))) else 0)
      + Others(network[1..], exact)
  }

  function LanAssign(network: seq<Section>): int {
    var lan := Find(network, Lan);
    if lan.None? then 0 else Assign(lan.value)
  }

  function Ula(lib: Library, network: seq<Section>): Option<Net> {
    if network == [] then None
    else
      var later := Ula(lib, network[1..]);
      if later.Some? then later
      else if network[0].kind.Globals? then lib.prefix(Opt(network[0], UlaPrefix)) else None
  }

  /** Some prefix has a /64 left when the home network and the others have
      taken theirs. */
  predicate Room(masks: seq<int>, home: nat, others: nat) {
    exists m :: m in masks && Exact(m) > home + others
  }

  lemma CapacityIsLess(mask: int)
    ensures Capacity(mask) <= Exact(mask) && Capacity(mask) <= Pow2(16)
    ensures Capacity(mask) < Pow2(16) ==> Capacity(mask) == Exact(mask)
    ensures mask <= 0 || mask >= 48 ==> Capacity(mask) == Exact(mask)
  {
    if 0 < mask <= 64 {
      if mask < 48 {
        Pow2Mono(16, 64 - mask);
      } else {
        Pow2Mono(64 - mask, 16);
      }
    }
  }

  lemma {:induction false} OthersExact(network: seq<Section>)
    ensures Others(network, false) <= Others(network, true)
    ensures Others(network, false) < Pow2(16) ==> Others(network, false) == Others(network, true)
  {
    hide Capacity, Exact, Pow2, Assign;
    if network != [] {
      CapacityIsLess(Assign(network[0]));
      OthersExact(network[1..]);
    }
  }

  /** All prefixes a network could come from: the delegated ones and the home's
      own. */
  function AllMasks(lib: Library, network: seq<Section>, delegated: seq<int>): seq<int> {
    var ula := Ula(lib, network);
    if ula.Some? then delegated + [ula.value.bits] else delegated
  }

  /** No prefix and no other network is longer than a /48 holds. */
  predicate Plain(masks: seq<int>, network: seq<Section>) {
    (forall m :: m in masks ==> m <= 0 || m >= 48)
    && (forall s :: s in network && TakesPart(s) ==> Assign(s) <= 0 || Assign(s) >= 48)
  }

  lemma {:induction false} OthersPlain(network: seq<Section>)
    requires Plain([], network)
    ensures Others(network, false) == Others(network, true)
  {
    hide Capacity, Exact, Pow2, Assign;
    if network != [] {
      CapacityIsLess(Assign(network[0]));
      OthersPlain(network[1..]);
    }
  }

  /** No delegated prefix has a /64 left beside the home network as it is, and
      some prefix has one beside a home network of a single /64. */
  predicate Renumbers(lib: Library, network: seq<Section>, delegated: seq<int>) {
    var assign, others := LanAssign(network), Others(network, false);
    && 0 < assign < 64 && (forall m :: m in delegated ==> Capacity(m) <= Capacity(assign) + others)
    && HasSpare(AllMasks(lib, network, delegated), network, 1)
  }

  /** Some prefix has a /64 beside so many of the home network and the others'. */
  predicate HasSpare(masks: seq<int>, network: seq<Section>, home: nat) {
    exists m :: m in masks && Capacity(m) > home + Others(network, false)
  }

  lemma HomeTakesOne(mask: int)
    ensures 0 < mask < 64 ==> Capacity(mask) >= 1
  {
  }

  /** Whether guests get IPv6, and whether the home network is renumbered for
      it. A yes is never wrong; a no is right too unless something is larger
      than a /48. */
  method GuestIPv6(lib: Library, network: seq<Section>, delegated: seq<int>) returns (ipv6: bool, renumber: bool)
    ensures renumber ==> ipv6 && 0 < LanAssign(network) < 64
    ensures ipv6 ==>
      Room(AllMasks(lib, network, delegated), if renumber then 1 else Exact(LanAssign(network)), Others(network, true))
    ensures Plain(AllMasks(lib, network, delegated), network) && !ipv6 ==>
      !Room(AllMasks(lib, network, delegated), if 0 < LanAssign(network) <= 64 then 1 else 0, Others(network, true))
    ensures renumber <==> Renumbers(lib, network, delegated)
    ensures ipv6 <==>
      HasSpare(AllMasks(lib, network, delegated), network, if Renumbers(lib, network, delegated) then 1 else Capacity(LanAssign(network)))
  {
    hide Pow2, Exact, Capacity, Others, LanAssign, Ula;
    var assign := LanAssign(network);
    var home := Capacity(assign);
    var others := CountOthers(network);
    renumber := 0 < assign < 64;
    if renumber {
      for k := 0 to |delegated|
        invariant renumber <==> !exists m :: m in delegated[..k] && Capacity(m) > home + others
      {
        assert delegated[..k + 1] == delegated[..k] + [delegated[k]];
        if Capacity(delegated[k]) > home + others {
          renumber := false;
        }
      }
      assert delegated[..|delegated|] == delegated;
    }
    if renumber {
      home := 1;
    }
    var all := AllMasks(lib, network, delegated);
    for k := 0 to |all|
      invariant forall j :: 0 <= j < k ==> Capacity(all[j]) <= home + others
    {
      if Capacity(all[k]) > home + others {
        CapacityIsLess(all[k]);
        CapacityIsLess(assign);
        OthersExact(network);
        assert all[k] in all;
        return true, renumber;
      }
    }
    assert forall m :: m in all ==> Capacity(m) <= home + others;
    HomeTakesOne(assign);
    if Plain(all, network) {
      NoRoom(all, delegated, network, home, assign, renumber);
    }
    return false, false;
  }

  lemma NoRoom(all: seq<int>, delegated: seq<int>, network: seq<Section>, home: nat, assign: int, renumber: bool)
    requires Plain(all, network) && delegated <= all
    requires forall j :: 0 <= j < |all| ==> Capacity(all[j]) <= home + Others(network, false)
    requires home == if renumber then 1 else Capacity(assign)
    requires renumber ==> 0 < assign < 64
    requires 0 < assign < 64 && !renumber ==> exists m :: m in delegated && Capacity(m) > Capacity(assign) + Others(network, false)
    ensures !Room(all, if 0 < assign <= 64 then 1 else 0, Others(network, true))
  {
    hide Capacity, Exact, Pow2, Assign;
    OthersPlain(network);
    OneOrNone();
    assert forall m :: m in delegated ==> m in all;
    CapacityIsLess(assign);
    OutsideIsNone(assign);
    forall m | m in all ensures Exact(m) <= home + Others(network, true) {
      CapacityIsLess(m);
    }
  }

  lemma OneOrNone()
    ensures Capacity(64) == 1
  {
  }

  lemma OutsideIsNone(mask: int)
    ensures mask <= 0 || mask > 64 ==> Capacity(mask) == 0
  {
  }

  method CountOthers(network: seq<Section>) returns (others: nat)
    ensures others == Others(network, false)
  {
    others := 0;
    for k := 0 to |network|
      invariant others + Others(network[k..], false) == Others(network, false)
    {
      assert network[k..][1..] == network[k + 1..];
      if TakesPart(network[k]) {
        others := others + Capacity(Assign(network[k]));
      }
    }
  }
}
