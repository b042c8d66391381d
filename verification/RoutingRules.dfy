/** The owner's routing rules put into force (internal/adapters/openwrt/routing.go),
    and what that promises end to end. */
module RoutingRules {
  import opened Outcomes
  import opened Media
  import opened Prefixes
  import opened KernelRouting
  import opened TunnelRoute
  import opened TunnelRouting
  import opened LeakFree
  import opened Marking
  import TunnelPrefixes

  lemma LanIsGood()
    ensures GoodInterface("lan")
  {
  }

  /** A loaded chain does what the rules ask of traffic from these interfaces. */
  ghost predicate Enforces(chain: seq<Statement>, rules: seq<RouteRule>, ingress: seq<string>) {
    Marking.Parsed(rules) && Runnable(chain)
    && forall a: Arrival :: Marked(chain, a) == Intended(rules, ingress, a)
  }

  /** A chain that was loaded, with the rules and interfaces it was rendered from. */
  datatype Loaded = Loaded(chain: seq<Statement>, rules: seq<RouteRule>, ingress: seq<string>)

  class RoutingManager {
    const router: TunnelRouter
    /** The stored document, and nft. */
    const outside: Medium
    /** Whether the engine has an interface, and so rules of its own to ensure. */
    const routed: bool
    var rules: seq<RouteRule>
    /** The chain in force; empty until one is first loaded. */
    var chain: seq<Statement>
    /** Every chain that was ever loaded, the one in force last. */
    ghost var loaded: seq<Loaded>

    /** Nothing is marked for the tunnel unless the marked traffic is guarded. */
    ghost predicate Valid()
      reads this, router, router.v4, router.v6
    {
      && router.Valid() && Marking.Parsed(rules)
      && chain == (if loaded == [] then [] else loaded[|loaded| - 1].chain)
      && (forall l :: l in loaded ==> Enforces(l.chain, l.rules, l.ingress))
      && (routed && loaded != [] ==> router.Armed())
    }

    constructor (router: TunnelRouter, outside: Medium, routed: bool)
      requires router.Valid()
      ensures Valid() && this.router == router && this.outside == outside && this.routed == routed
      ensures loaded == [] && rules == []
    {
      this.router, this.outside, this.routed := router, outside, routed;
      rules, chain, loaded := [], [], [];
    }

    /** Replaces the stored rules, all of them or none. */
    method SetRules(wanted: seq<RouteRule>) returns (ok: bool)
      requires Valid() && Marking.Parsed(wanted)
      modifies this`rules, outside
      ensures Valid()
      ensures ok ==> rules == wanted && forall r :: r in rules ==> WellFormed(r)
      ensures !ok ==> rules == old(rules)
      ensures outside.faults == old(outside.faults) ==> (ok <==> forall r :: r in wanted ==> WellFormed(r))
    {
      hide Enforces, WellFormed, GoodInterface, Runnable, Marked, Intended, TunnelRouter.Valid;
      var rendered := Render(["lan"], wanted);
      LanIsGood();
      if rendered.Err? {
        return false;
      }
      ok := outside.Try(); // load
      if ok {
        ok := outside.Try(); // save
      }
      if ok {
        rules := wanted;
      }
    }

    /** The chain goes into force, whole or not at all: never before what it marks
        is guarded. */
    method Load(rendered: seq<Statement>, ingress: seq<string>) returns (ok: bool)
      requires Valid() && Enforces(rendered, rules, ingress) && (routed ==> router.Armed())
      modifies this`chain, this`loaded, outside
      ensures Valid()
      ensures if ok then chain == rendered && loaded == old(loaded) + [Loaded(rendered, rules, ingress)] else chain == old(chain) && loaded == old(loaded)
      ensures outside.faults == if ok then old(outside.faults) else old(outside.faults) + 1
    {
      hide Enforces, TunnelRouter.Armed, TunnelRouter.Valid;
      ok := outside.Try();
      if ok {
        chain, loaded := rendered, loaded + [Loaded(rendered, rules, ingress)];
      }
    }

    /** What applying takes besides that everything works. */
    ghost predicate Applicable(lan: Option<seq<string>>)
      reads this, router, router.v4, router.v6
    {
      && (routed ==> router.Few()) && (forall r :: r in rules ==> WellFormed(r))
      && lan.Some? && lan.value != [] && forall n :: n in lan.value ==> GoodInterface(n)
    }

    /** Puts the stored rules into force: the guard first, then the chain,
        loaded whole or not at all. `lan` is none when the local network's
        interfaces could not be read. */
    method Apply(lan: Option<seq<string>>) returns (ok: bool)
      requires Valid()
      modifies this`chain, this`loaded, outside, router.v4, router.v6
      ensures Valid() && router.SafeThroughout()
      ensures router.v4.view.tunnel == old(router.v4.view).tunnel
      ensures router.v6.view.tunnel == old(router.v6.view).tunnel
      ensures old(router.Armed()) ==> router.Armed()
      ensures !ok ==> chain == old(chain) && loaded == old(loaded)
      ensures ok ==> lan.Some? && loaded == old(loaded) + [Loaded(chain, rules, lan.value)]
      ensures ok ==> Enforces(chain, rules, lan.value) && (routed ==> router.Armed())
      ensures outside.faults == old(outside.faults) && router.Calm() && old(Applicable(lan)) ==> ok
    {
      hide SafeSince, Sound, Owned, Kernel.Valid, Enforces, TunnelRouter.Few, GoodInterface, WellFormed;
      NothingYet(V4, router.v4.view, router.v4.views, router.devices);
      NothingYet(V6, router.v6.view, router.v6.views, router.devices);
      var read := outside.Try();
      if !read {
        return false;
      }
      if routed {
        var ensured := router.Ensure();
        if !ensured {
          return false;
        }
      }
      if lan.None? {
        return false;
      }
      var rendered := Render(lan.value, rules);
      if rendered.Err? {
        return false;
      }
      RenderedEnforces(rendered.value, lan.value);
      ok := Load(rendered.value, lan.value);
    }

    lemma RenderedEnforces(rendered: seq<Statement>, ingress: seq<string>)
      requires Valid() && Runnable(rendered)
      requires forall a: Arrival :: Marked(rendered, a) == Intended(rules, ingress, a)
      ensures Enforces(rendered, rules, ingress)
    {
    }
  }

  // ---- End to end ----

  /** A kernel state of one family that the guard has reached. `AllArmed` says
      every state of a record is one. */
  ghost predicate GuardedState(f: Family, n: Net, devices: set<string>) {
    ValidNet(n) && Sound(f, ViewOf(n)) && Owned(ViewOf(n), devices)
  }

  /** In such a state, what the local network sends to a tunnel network, and to
      no direct one, leaves through the tunnel or is refused. */
  lemma AskedForNeverLeaks(chain: seq<Statement>, rules: seq<RouteRule>, ingress: seq<string>,
                           n: Net, a: Arrival, devices: set<string>)
    requires Enforces(chain, rules, ingress) && AskedFor(rules, ingress, a)
    requires GuardedState(a.family, n, devices) && OnFamily(a.family, a.packet)
    requires BYPASS_MARK !! a.packet.mark && Quiet(n, Marked(chain, a))
    ensures var d := Decide(n, Marked(chain, a)); d == Refusal || ThroughTunnel(d, devices)
  {
    assert Marked(chain, a) == Intended(rules, ingress, a);
    GuardedNeverLeaks(a.family, n, Marked(chain, a), devices);
  }

  /** And what the rules do not send there, arriving unmarked, never takes the
      tunnel's default route, whatever networks the connection lists. */
  lemma NotAskedForStaysHome(chain: seq<Statement>, rules: seq<RouteRule>, ingress: seq<string>,
                             n: Net, a: Arrival, devices: set<string>)
    requires Enforces(chain, rules, ingress) && !AskedFor(rules, ingress, a)
    requires GuardedState(a.family, n, devices) && OthersAvoidTunnel(n)
    requires TUNNEL_MARK !! a.packet.mark
    ensures var d := Decide(n, Marked(chain, a)); d.Via? && d.table == TUNNEL ==> d.route.prefix.bits > 0
  {
    assert Marked(chain, a) == Intended(rules, ingress, a);
    UnmarkedNeverExits(n, Marked(chain, a));
  }

  /** With nothing in the tunnel's table what is asked for goes nowhere. */
  lemma AskedForIsRefused(chain: seq<Statement>, rules: seq<RouteRule>, ingress: seq<string>,
                          n: Net, a: Arrival, devices: set<string>)
    requires Enforces(chain, rules, ingress) && AskedFor(rules, ingress, a)
    requires GuardedState(a.family, n, devices) && OnFamily(a.family, a.packet) && n.Table(TUNNEL) == []
    requires BYPASS_MARK !! a.packet.mark && Quiet(n, Marked(chain, a))
    ensures Decide(n, Marked(chain, a)) == Refusal
  {
    assert Marked(chain, a) == Intended(rules, ingress, a);
    InMine(n, HOLD_RULE);
    if HOLD_RULE in n.rules {
      HeldRefuses(a.family, n, Marked(chain, a), devices);
    } else {
      VerifiedDecides(a.family, n, Marked(chain, a), devices);
    }
  }

  /** What one state of a family's kernel does with every packet that a loaded
      chain has seen. */
  ghost predicate NoLeak(f: Family, n: Net, l: Loaded, devices: set<string>)
    requires Enforces(l.chain, l.rules, l.ingress)
  {
    && ValidNet(n)
    && (forall a: Arrival :: StayingIn(f, n, l, a) ==>
      var d := Decide(n, Marked(l.chain, a)); d == Refusal || ThroughTunnel(d, devices))
    && (forall a: Arrival :: StayingOut(f, n, l, a) ==>
      var d := Decide(n, Marked(l.chain, a)); d.Via? && d.table == TUNNEL ==> d.route.prefix.bits > 0)
  }

  /** A packet the rules ask the tunnel for, which nobody else has a say in. */
  ghost predicate StayingIn(f: Family, n: Net, l: Loaded, a: Arrival)
    requires Enforces(l.chain, l.rules, l.ingress) && ValidNet(n)
  {
    && a.family == f && OnFamily(f, a.packet) && BYPASS_MARK !! a.packet.mark
    && AskedFor(l.rules, l.ingress, a) && Quiet(n, Marked(l.chain, a))
  }

  /** An unmarked packet they do not ask it for. */
  ghost predicate StayingOut(f: Family, n: Net, l: Loaded, a: Arrival)
    requires Enforces(l.chain, l.rules, l.ingress) && ValidNet(n)
  {
    a.family == f && TUNNEL_MARK !! a.packet.mark && !AskedFor(l.rules, l.ingress, a) && OthersAvoidTunnel(n)
  }

  lemma GuardedLeaksNothing(f: Family, n: Net, l: Loaded, devices: set<string>)
    requires GuardedState(f, n, devices) && Enforces(l.chain, l.rules, l.ingress)
    ensures NoLeak(f, n, l, devices)
  {
    hide Decide, Marked, Quiet, Intended, OthersAvoidTunnel, AskedFor, Sound, Owned;
    forall a: Arrival | StayingIn(f, n, l, a)
      ensures var d := Decide(n, Marked(l.chain, a)); d == Refusal || ThroughTunnel(d, devices)
    {
      AskedForNeverLeaks(l.chain, l.rules, l.ingress, n, a, devices);
    }
    forall a: Arrival | StayingOut(f, n, l, a)
      ensures var d := Decide(n, Marked(l.chain, a)); d.Via? && d.table == TUNNEL ==> d.route.prefix.bits > 0
    {
      NotAskedForStaysHome(l.chain, l.rules, l.ingress, n, a, devices);
    }
  }

  /** With the connection up (its table written as `Up` writes it) and no hold
      left, asked-for traffic leaves by the device exactly when the connection's
      networks cover the destination. */
  lemma AskedForGoesThrough(chain: seq<Statement>, rules: seq<RouteRule>, ingress: seq<string>,
                            n: Net, a: Arrival, devices: set<string>, networks: seq<Prefix>, dev: string)
    requires Enforces(chain, rules, ingress) && AskedFor(rules, ingress, a)
    requires GuardedState(a.family, n, devices) && OnFamily(a.family, a.packet)
    requires Settled(a.family, ViewOf(n)) && Routes(a.family, n.Table(TUNNEL), networks, dev)
    requires TunnelPrefixes.Routable(networks)
    requires BYPASS_MARK !! a.packet.mark && Quiet(n, Marked(chain, a))
    ensures var d := Decide(n, Marked(chain, a));
      if TunnelPrefixes.Covers(networks, a.family, a.packet.dst)
      then d.Via? && d.table == TUNNEL && d.route.hop == Dev(dev)
      else d == Refusal
  {
    assert Marked(chain, a) == Intended(rules, ingress, a);
    SettledIsSound(a.family, ViewOf(n));
    InMine(n, HOLD_RULE);
    VerifiedDecides(a.family, n, Marked(chain, a), devices);
    TableValid(n, TUNNEL);
    RoutesReach(a.family, n.Table(TUNNEL), networks, dev, a.packet.dst);
  }

  lemma TableValid(n: Net, t: nat)
    requires ValidNet(n)
    ensures ValidRoutes(n.Table(t))
  {
  }
}
