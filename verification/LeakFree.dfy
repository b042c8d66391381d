/** What a state of the rules means for packets: the lookups of every packet
    of interest, read off the panel's part of the kernel. */
module LeakFree {
  import opened Prefixes
  import opened KernelRouting
  import opened TunnelRoute

  predicate OnFamily(f: Family, p: Packet) {
    p.dst < Pow2(Width(f))
  }

  /** Marked for the tunnel, and not the engine's own socket. */
  predicate TunnelOnly(p: Packet) {
    TUNNEL_MARK <= p.mark && BYPASS_MARK !! p.mark
  }

  /** No rule of anybody else's, up to a priority, has an opinion on the packet.
      The router's own addresses (`local`, priority 0) are such rules too: a
      packet to one of them is not quiet. */
  ghost predicate QuietUpTo(n: Net, p: Packet, prio: nat)
    requires ValidNet(n)
  {
    forall r :: r in n.rules && r.prio <= prio && !Wanted(r.prio) && r != HOLD_RULE ==> Decides(n, r, p).Undecided?
  }

  ghost predicate Quiet(n: Net, p: Packet)
    requires ValidNet(n)
  {
    QuietUpTo(n, p, REFUSED)
  }

  predicate ThroughTunnel(d: Decision, devices: set<string>) {
    d.Via? && d.table == TUNNEL && d.route.hop.Dev? && d.route.hop.name in devices
  }

  /** A table that holds only refusals, the default among them, refuses. */
  lemma RefusingTable(f: Family, n: Net, p: Packet, r: Rule)
    requires ValidNet(n) && OnFamily(f, p)
    requires DefaultRefusal(f) in n.Table(REFUSE)
    requires forall x :: x in n.Table(REFUSE) ==> x.hop.Unreachable?
    requires r.selector == TUNNEL_SELECTOR && r.action == Lookup(REFUSE, -1)
    requires TUNNEL_MARK <= p.mark
    ensures Decides(n, r, p) == Refusal
  {
    EverythingContains(f, p.dst);
    var i :| 0 <= i < |n.Table(REFUSE)| && n.Table(REFUSE)[i] == DefaultRefusal(f);
    assert n.Table(REFUSE)[i].prefix.Contains(p.dst);
  }

  /** A rule at index k with an opinion settles the packet among rules[..k+1]. */
  lemma DecidedBy(n: Net, p: Packet, r: Rule) returns (d: Rule)
    requires ValidNet(n) && r in n.rules && !Decides(n, r, p).Undecided?
    ensures d in n.rules && d.prio <= r.prio && Decide(n, p) == Decides(n, d, p) && !Decides(n, d, p).Undecided?
  {
    var k := FirstDecider(n, 0, p);
    var i :| 0 <= i < |n.rules| && n.rules[i] == r;
    d := n.rules[k];
  }

  lemma InMine(n: Net, r: Rule)
    ensures Ours(r.prio) ==> (r in n.rules <==> r in ViewOf(n).rules)
  {
    MineHas(n.rules, r);
  }

  /** Under the verified set, the rules on the wanted priorities are the panel's. */
  lemma VerifiedRules(f: Family, n: Net, r: Rule)
    requires InPlace(f, ViewOf(n))
    ensures r in Want() ==> r in n.rules
    ensures r in n.rules && Wanted(r.prio) ==> r in Want()
  {
    InMine(n, r);
    WithoutHas(ViewOf(n).rules, HOLD, r);
  }

  /** While the hold is in, every packet with the tunnel's mark is refused. */
  lemma HeldRefuses(f: Family, n: Net, p: Packet, devices: set<string>)
    requires ValidNet(n) && OnFamily(f, p) && Owned(ViewOf(n), devices)
    requires Held(f, ViewOf(n)) && Quiet(n, p) && TUNNEL_MARK <= p.mark
    ensures Decide(n, p) == Refusal
  {
    InMine(n, HOLD_RULE);
    RefusingTable(f, n, p, HOLD_RULE);
    var d := DecidedBy(n, p, HOLD_RULE);
  }

  /** Under the verified set with no hold, a marked packet leaves by the
      tunnel's route to its destination, and is refused when there is none. */
  lemma VerifiedDecides(f: Family, n: Net, p: Packet, devices: set<string>)
    requires ValidNet(n) && OnFamily(f, p) && Owned(ViewOf(n), devices)
    requires InPlace(f, ViewOf(n)) && HOLD_RULE !in n.rules && Quiet(n, p) && TunnelOnly(p)
    ensures Decide(n, p) ==
      var k := Best(n.Table(TUNNEL), p.dst);
      if k >= 0 then Via(TUNNEL, n.Table(TUNNEL)[k]) else Refusal
  {
    hide Decides, Decide, Best, InPlace, Owned, TunnelOnly;
    var k := Best(n.Table(TUNNEL), p.dst);
    forall r | r in [BYPASS_RULE, MARKED_RULE, REFUSE_RULE]
      ensures r in n.rules
      ensures r == BYPASS_RULE ==> Decides(n, r, p).Undecided?
      ensures r == MARKED_RULE ==> Decides(n, r, p) == if k >= 0 then Via(TUNNEL, n.Table(TUNNEL)[k]) else Undecided
      ensures r == REFUSE_RULE ==> Decides(n, r, p) == Refusal
    {
      VerifiedRules(f, n, r);
      MarkedRules(f, n, p, devices);
    }
    assert [BYPASS_RULE, MARKED_RULE, REFUSE_RULE][1] == MARKED_RULE && [BYPASS_RULE, MARKED_RULE, REFUSE_RULE][2] == REFUSE_RULE;
    var d := DecidedBy(n, p, if k >= 0 then MARKED_RULE else REFUSE_RULE);
    VerifiedRules(f, n, d);
    assert Wanted(d.prio);
  }

  /** What each permanent rule that a marked packet can meet makes of it. */
  lemma MarkedRules(f: Family, n: Net, p: Packet, devices: set<string>)
    requires ValidNet(n) && OnFamily(f, p) && Owned(ViewOf(n), devices) && InPlace(f, ViewOf(n)) && TunnelOnly(p)
    ensures Decides(n, BYPASS_RULE, p).Undecided? && Decides(n, REFUSE_RULE, p) == Refusal
    ensures Decides(n, MARKED_RULE, p) ==
      var k := Best(n.Table(TUNNEL), p.dst);
      if k >= 0 then Via(TUNNEL, n.Table(TUNNEL)[k]) else Undecided
  {
    RefusingTable(f, n, p, REFUSE_RULE);
    BypassMiss(p);
    var k := Best(n.Table(TUNNEL), p.dst);
    hide Best, Prefix.Contains;
    assert k >= 0 ==> n.Table(TUNNEL)[k].hop.Dev?;
  }

  lemma BypassMiss(p: Packet)
    requires BYPASS_MARK !! p.mark
    ensures !Matches(BYPASS_SELECTOR, p)
  {
  }

  /** A guarded kernel never sends a packet marked for the tunnel anywhere but
      into the tunnel, whatever else is in its tables and rules. */
  lemma GuardedNeverLeaks(f: Family, n: Net, p: Packet, devices: set<string>)
    requires ValidNet(n) && OnFamily(f, p) && Owned(ViewOf(n), devices)
    requires Guarded(f, ViewOf(n)) && Quiet(n, p) && TunnelOnly(p)
    ensures Decide(n, p) == Refusal || ThroughTunnel(Decide(n, p), devices)
  {
    InMine(n, HOLD_RULE);
    if HOLD_RULE in n.rules {
      assert Held(f, ViewOf(n));
      HeldRefuses(f, n, p, devices);
    } else {
      VerifiedDecides(f, n, p, devices);
    }
  }

  /** Nobody else's rule sends traffic into the tunnel's table. */
  predicate OthersAvoidTunnel(n: Net) {
    forall r :: r in n.rules && !Ours(r.prio) && r.action.Lookup? ==> r.action.table != TUNNEL
  }

  /** Unmarked traffic reaches the connection's own networks at most, never the
      internet through it: it cannot take the tunnel's default route. */
  lemma UnmarkedNeverExits(n: Net, p: Packet)
    requires ValidNet(n) && Clean(ViewOf(n)) && OthersAvoidTunnel(n)
    requires !(TUNNEL_MARK <= p.mark)
    ensures Decide(n, p).Via? && Decide(n, p).table == TUNNEL ==> Decide(n, p).route.prefix.bits > 0
  {
    var k := FirstDecider(n, 0, p);
    if k < |n.rules| {
      InMine(n, n.rules[k]);
    }
  }

  /** What a table makes of a destination when its default route does not count. */
  ghost function BesidesDefault(n: Net, t: nat, dst: nat): Decision
    requires ValidNet(n)
  {
    var k := Best(n.Table(t), dst);
    if k < 0 then Undecided
    else if n.Table(t)[k].hop.Unreachable? then Refusal
    else if n.Table(t)[k].prefix.bits > 0 then Via(t, n.Table(t)[k])
    else Undecided
  }

  /** The router's own networks first, then the connection's. */
  ghost function ByNetworks(n: Net, dst: nat): Decision
    requires ValidNet(n)
  {
    var home := BesidesDefault(n, MAIN, dst);
    if home.Undecided? then BesidesDefault(n, TUNNEL, dst) else home
  }

  lemma Permanent(f: Family, n: Net, r: Rule)
    requires InPlace(f, ViewOf(n))
    ensures r in n.rules && Wanted(r.prio) <==> r in Want()
  {
    VerifiedRules(f, n, r);
  }

  /** What each permanent rule makes of a packet that bears neither mark. */
  lemma UnmarkedRules(n: Net, p: Packet, r: Rule)
    requires ValidNet(n) && TUNNEL_MARK !! p.mark && BYPASS_MARK !! p.mark && r in Want()
    ensures r.prio < LOCAL ==> Decides(n, r, p).Undecided?
    ensures r.prio == LOCAL ==> Decides(n, r, p) == BesidesDefault(n, MAIN, p.dst)
    ensures r.prio > LOCAL ==> Decides(n, r, p) == BesidesDefault(n, TUNNEL, p.dst)
  {
    hide Best;
    assert !Matches(TUNNEL_SELECTOR, p) && !Matches(BYPASS_SELECTOR, p) && Matches(Any, p);
  }

  /** Under the verified set a packet with neither mark takes the router's own
      route to its destination if there is one besides the default; if not, the
      connection's, if there is one besides the default; and if not, none of the
      panel's rules has a say in it. */
  lemma UnmarkedDecides(f: Family, n: Net, p: Packet)
    requires ValidNet(n) && InPlace(f, ViewOf(n)) && HOLD_RULE !in n.rules && QuietUpTo(n, p, NETS)
    requires TUNNEL_MARK !! p.mark && BYPASS_MARK !! p.mark
    ensures !ByNetworks(n, p.dst).Undecided? ==> Decide(n, p) == ByNetworks(n, p.dst)
    ensures ByNetworks(n, p.dst).Undecided? ==> forall r :: r in n.rules && r.prio <= NETS ==> Decides(n, r, p).Undecided?
  {
    hide Decides, Decide, Best, InPlace;
    forall r | r in n.rules && r.prio <= NETS
      ensures r.prio < LOCAL || r !in Want() ==> Decides(n, r, p).Undecided?
      ensures r in Want() || Decides(n, r, p).Undecided?
    {
      Permanent(f, n, r);
      if r in Want() {
        UnmarkedRules(n, p, r);
      }
    }
    Permanent(f, n, LOCAL_RULE);
    Permanent(f, n, NETS_RULE);
    assert Want()[3] == LOCAL_RULE && Want()[4] == NETS_RULE;
    UnmarkedRules(n, p, LOCAL_RULE);
    UnmarkedRules(n, p, NETS_RULE);
    if !Decides(n, LOCAL_RULE, p).Undecided? {
      var d := DecidedBy(n, p, LOCAL_RULE);
      AtPriority(d);
    } else if !Decides(n, NETS_RULE, p).Undecided? {
      var d := DecidedBy(n, p, NETS_RULE);
      AtPriority(d);
    } else {
      forall r | r in n.rules && r.prio <= NETS ensures Decides(n, r, p).Undecided? {
        AtPriority(r);
      }
    }
  }

  lemma AtPriority(r: Rule)
    ensures r in Want() && r.prio == LOCAL ==> r == LOCAL_RULE
    ensures r in Want() && r.prio > LOCAL ==> r == NETS_RULE
  {
  }

  predicate OwnSocket(p: Packet) {
    BYPASS_MARK <= p.mark && TUNNEL_MARK !! p.mark
  }

  /** The connection's networks name the destination, default route aside. */
  ghost predicate Named(n: Net, dst: nat)
    requires ValidNet(n)
  {
    var k := Best(n.Table(TUNNEL), dst);
    k >= 0 && n.Table(TUNNEL)[k].prefix.bits > 0
  }

  /** What each permanent rule makes of the engine's own packets. */
  lemma OwnSocketRules(n: Net, p: Packet, r: Rule)
    requires ValidNet(n) && OwnSocket(p) && r in Want()
    requires forall x :: x in n.Table(TUNNEL) ==> x.hop.Dev?
    ensures r == BYPASS_RULE && Best(n.Table(MAIN), p.dst) >= 0 ==> !Decides(n, r, p).Undecided?
    ensures r == NETS_RULE && Named(n, p.dst) ==> Decides(n, r, p).Via?
    ensures Best(n.Table(MAIN), p.dst) == -1 && !Decides(n, r, p).Undecided? ==> r == NETS_RULE && Named(n, p.dst)
    ensures Decides(n, r, p).Via? && Decides(n, r, p).table == TUNNEL ==> r == NETS_RULE
  {
    hide Best;
    assert !Matches(TUNNEL_SELECTOR, p) && Matches(BYPASS_SELECTOR, p) && Matches(Any, p);
    var k := Best(n.Table(TUNNEL), p.dst);
    assert k >= 0 ==> n.Table(TUNNEL)[k] in n.Table(TUNNEL);
    if r == BYPASS_RULE {
    } else if r == LOCAL_RULE {
    } else if r == NETS_RULE {
    } else {
      assert r.selector == TUNNEL_SELECTOR;
    }
  }

  /** The engine's own socket enters its own tunnel exactly when main has no
      route to the server and the connection's networks name it. */
  lemma OwnSocketEntersIff(f: Family, n: Net, p: Packet)
    requires ValidNet(n) && InPlace(f, ViewOf(n)) && OthersAvoidTunnel(n)
    requires QuietUpTo(n, p, NETS) && (forall x :: x in n.Table(TUNNEL) ==> x.hop.Dev?)
    requires OwnSocket(p) && HOLD_RULE !in n.rules
    ensures (Decide(n, p).Via? && Decide(n, p).table == TUNNEL) <==>
      Best(n.Table(MAIN), p.dst) == -1 && Named(n, p.dst)
  {
    hide Decides, Named, OwnSocket, InPlace;
    forall r | r in Want()
      ensures r in n.rules
      ensures r == BYPASS_RULE && Best(n.Table(MAIN), p.dst) >= 0 ==> !Decides(n, r, p).Undecided?
      ensures r == NETS_RULE && Named(n, p.dst) ==> Decides(n, r, p).Via?
      ensures Best(n.Table(MAIN), p.dst) == -1 && !Decides(n, r, p).Undecided? ==> r == NETS_RULE && Named(n, p.dst)
      ensures Decides(n, r, p).Via? && Decides(n, r, p).table == TUNNEL ==> r == NETS_RULE
    {
      VerifiedRules(f, n, r);
      OwnSocketRules(n, p, r);
    }
    var j := FirstDecider(n, 0, p);
    if Best(n.Table(MAIN), p.dst) >= 0 {
      var d := DecidedBy(n, p, BYPASS_RULE);
      VerifiedRules(f, n, d);
    } else if Named(n, p.dst) {
      var d := DecidedBy(n, p, NETS_RULE);
      VerifiedRules(f, n, d);
      assert d == NETS_RULE;
      NetsIntoTunnel(n, p);
    } else if j < |n.rules| {
      OthersDecide(f, n, p, n.rules[j]);
    }
  }

  /** Whichever way, the engine's own packets take main's best route, the default
      included, whenever main has one. */
  lemma OwnSocketByMain(f: Family, n: Net, p: Packet)
    requires ValidNet(n) && InPlace(f, ViewOf(n)) && QuietUpTo(n, p, BYPASS) && HOLD_RULE !in n.rules
    requires OwnSocket(p) && Best(n.Table(MAIN), p.dst) >= 0
    ensures var route := n.Table(MAIN)[Best(n.Table(MAIN), p.dst)];
      Decide(n, p) == if route.hop.Unreachable? then Refusal else Via(MAIN, route)
  {
    hide Decide, Best, InPlace;
    Permanent(f, n, BYPASS_RULE);
    assert Want()[0] == BYPASS_RULE && Matches(BYPASS_SELECTOR, p);
    var d := DecidedBy(n, p, BYPASS_RULE);
    Permanent(f, n, d);
  }

  lemma NetsIntoTunnel(n: Net, p: Packet)
    requires ValidNet(n)
    ensures Decides(n, NETS_RULE, p).Via? ==> Decides(n, NETS_RULE, p).table == TUNNEL
  {
  }

  /** A rule outside the permanent set does not lead into the tunnel. */
  lemma OthersDecide(f: Family, n: Net, p: Packet, r: Rule)
    requires ValidNet(n) && InPlace(f, ViewOf(n)) && OthersAvoidTunnel(n) && HOLD_RULE !in n.rules
    requires QuietUpTo(n, p, NETS) && r in n.rules && r !in Want()
    ensures Decides(n, r, p).Via? ==> Decides(n, r, p).table != TUNNEL
  {
    VerifiedRules(f, n, r);
  }
}
