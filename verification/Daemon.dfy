/** Routing rules and nodes together: one router, used by both managers, over
    any run of what the daemon does (internal/adapters/openwrt/tunnel_route.go,
    routing.go and vpn.go). */
module Daemon {
  import opened Outcomes
  import opened Prefixes
  import opened KernelRouting
  import opened TunnelRoute
  import opened TunnelRouting
  import opened LeakFree
  import opened Marking
  import opened RoutingRules
  import NodeManager
  import TunnelPrefixes

  // ---- The router under any order of calls ----

  /** A call that holds the router's lock, another program's change, or a chain
      loaded by a manager to which `Ensure` has answered. */
  datatype Call =
    | Ensure
    | Up(dev: string, allowed: seq<Option<Prefix>>)
    | Down
    | Others
    | Load(chain: Loaded)

  predicate WellFormedCall(c: Call) {
    c.Up? ==> TunnelPrefixes.Parsed(c.allowed)
  }

  /** Whatever order the two managers' calls reach the router in, and wherever
      between them the chains are loaded: once marked traffic is guarded, it is
      guarded in every state from then on, and with every chain loaded no state
      since leaks. */
  method AnyCalls(router: TunnelRouter, calls: seq<Call>)
    returns (ghost loaded: seq<Loaded>, ghost from4: nat, ghost from6: nat)
    requires router.Valid() && forall c :: c in calls ==> WellFormedCall(c)
    requires forall c :: c in calls && c.Load? ==> Enforces(c.chain.chain, c.chain.rules, c.chain.ingress)
    modifies router`devices, router.v4, router.v6
    ensures router.Valid()
    ensures Extends(old(router.v4.views), router.v4.views) && Extends(old(router.v6.views), router.v6.views)
    ensures old(router.Armed()) ==> router.Armed() && router.ArmedSince(|old(router.v4.views)|, |old(router.v6.views)|)
    ensures forall l :: l in loaded ==> Load(l) in calls && Enforces(l.chain, l.rules, l.ingress)
    ensures loaded != [] ==> from4 < |router.v4.views| && from6 < |router.v6.views|
    ensures forall l :: l in loaded ==> LeaksNothingSince(router, l, from4, from6)
  {
    hide SafeSince, Sound, AllArmed, TunnelRouter.Armed, Owned, Kernel.Valid, Enforces, NoLeak, TunnelRouter.ArmedThen;
    ghost var then4, then6, wasArmed := |router.v4.views|, |router.v6.views|, router.Armed();
    var armed := false;
    loaded, from4, from6 := [], 0, 0;
    router.ArmedSinceNow();
    for i := 0 to |calls|
      invariant router.Valid() && old(router.devices) <= router.devices
      invariant Extends(old(router.v4.views), router.v4.views) && Extends(old(router.v6.views), router.v6.views)
      invariant wasArmed ==> router.Armed() && router.ArmedSince(then4, then6)
      invariant armed ==> router.Armed() && from4 < |router.v4.views| && from6 < |router.v6.views| && router.ArmedSince(from4, from6)
      invariant loaded != [] ==> armed
      invariant forall l :: l in loaded ==> Load(l) in calls && Enforces(l.chain, l.rules, l.ingress)
    {
      ghost var past4, past6, devices := router.v4.views, router.v6.views, router.devices;
      var ok := OneCall(router, calls[i]);
      router.Rejoin(past4, past6, then4, then6, devices);
      if armed {
        router.Rejoin(past4, past6, from4, from6, devices);
      } else if ok {
        ArmedNow(router);
        armed, from4, from6 := true, |router.v4.views| - 1, |router.v6.views| - 1;
      }
      if calls[i].Load? && armed {
        loaded := loaded + [calls[i].chain];
      }
    }
    forall l | l in loaded ensures LeaksNothingSince(router, l, from4, from6) {
      ArmedLeaksNothing(router, l, from4, from6);
    }
  }

  /** Everything each kernel has been through since, with this chain. */
  ghost predicate LeaksNothingSince(router: TunnelRouter, l: Loaded, from4: nat, from6: nat)
    requires Enforces(l.chain, l.rules, l.ingress)
    reads router, router.v4, router.v6
  {
    && (forall i :: from4 <= i < |router.v4.trace| ==> NoLeak(V4, router.v4.trace[i], l, router.devices))
    && (router.hasIPv6 ==> forall i :: from6 <= i < |router.v6.trace| ==> NoLeak(V6, router.v6.trace[i], l, router.devices))
  }

  /** An armed record is one in which no packet leaks. */
  lemma ArmedLeaksNothing(router: TunnelRouter, l: Loaded, from4: nat, from6: nat)
    requires router.Valid() && from4 <= |router.v4.views| && from6 <= |router.v6.views|
    requires router.ArmedSince(from4, from6) && Enforces(l.chain, l.rules, l.ingress)
    ensures LeaksNothingSince(router, l, from4, from6)
  {
    hide NoLeak, Enforces;
    forall i | from4 <= i < |router.v4.trace| ensures NoLeak(V4, router.v4.trace[i], l, router.devices) {
      assert router.v4.views[i] == ViewOf(router.v4.trace[i]);
      GuardedLeaksNothing(V4, router.v4.trace[i], l, router.devices);
    }
    if router.hasIPv6 {
      forall i | from6 <= i < |router.v6.trace| ensures NoLeak(V6, router.v6.trace[i], l, router.devices) {
        assert router.v6.views[i] == ViewOf(router.v6.trace[i]);
        GuardedLeaksNothing(V6, router.v6.trace[i], l, router.devices);
      }
    }
  }

  lemma ArmedNow(router: TunnelRouter)
    requires router.Valid() && router.Armed()
    ensures |router.v4.views| > 0 && |router.v6.views| > 0
    ensures router.ArmedSince(|router.v4.views| - 1, |router.v6.views| - 1)
  {
  }

  /** One of them; `ok` says that the guard was put in place and verified. */
  method OneCall(router: TunnelRouter, call: Call) returns (ok: bool)
    requires router.Valid() && WellFormedCall(call)
    modifies router`devices, router.v4, router.v6
    ensures router.Valid() && old(router.devices) <= router.devices
    ensures Extends(old(router.v4.views), router.v4.views) && Extends(old(router.v6.views), router.v6.views)
    ensures ok ==> router.Armed()
    ensures old(router.Armed()) ==> router.Armed() && router.ArmedSince(|old(router.v4.views)|, |old(router.v6.views)|)
  {
    hide SafeSince, Sound, AllArmed, Owned, Kernel.Valid;
    ok := false;
    router.ArmedSinceNow();
    match call {
      case Ensure =>
        ok := router.Ensure();
      case Up(dev, allowed) =>
        var routed, _, _ := router.Up(dev, allowed);
        ok := routed;
      case Down =>
        var _ := router.Down();
      case Others =>
        OthersAct(router);
      case Load(_) =>
        return;
    }
    if old(router.Armed()) {
      router.SafeStaysArmed();
    }
  }

  /** Other programs change what is theirs, at a time of their own. */
  method OthersAct(router: TunnelRouter)
    requires router.Valid()
    modifies router.v4, router.v6
    ensures router.Valid() && router.SafeThroughout()
    ensures router.v4.view == old(router.v4.view) && router.v6.view == old(router.v6.view)
    ensures old(router.Armed()) ==> router.Armed()
  {
    hide SafeSince, Safe, HoldLeaves, Owned, Kernel.Valid;
    router.v4.Current();
    router.v6.Current();
    EntryIsSafe(V4, router.v4.view, router.devices);
    EntryIsSafe(V6, router.v6.view, router.devices);
    router.v4.Interfere();
    router.v6.Interfere();
    ReadingIsSafe(V4, old(router.v4.view), old(router.v4.views), router.v4.views, router.devices);
    ReadingIsSafe(V6, old(router.v6.view), old(router.v6.views), router.v6.views, router.devices);
  }

  // ---- The daemon ----

  /** What the daemon is asked to do, does by itself, or has done to it. */
  datatype Action =
    | SetRules(rules: seq<RouteRule>)
    | ApplyRules(lan: Option<seq<string>>)
    | Activate(id: string)
    | RemoveNode(id: string)
    | BringBack(id: string)
    | Restart
    | Outside

  /** What an action is for the node manager. */
  predicate IsStep(action: Action, step: NodeManager.Step) {
    match action
    case Activate(id) => step.Activate? && step.id == id
    case RemoveNode(id) => step.Remove? && step.id == id
    case BringBack(id) => step.BringBack? && step.id == id
    case Restart => step.Restart?
    case _ => step.Elsewhere?
  }

  /** One chain more was loaded, rendered from these rules for these interfaces. */
  predicate IsLoaded(was: seq<Loaded>, now: seq<Loaded>, rules: seq<RouteRule>, lan: Option<seq<string>>) {
    && |now| == |was| + 1 && now[..|was|] == was && lan.Some?
    && now[|was|].rules == rules && now[|was|].ingress == lan.value
  }

  class Daemon {
    const router: TunnelRouter
    const rules: RoutingManager
    const nodes: NodeManager.Manager
    /** Where each kernel's record stood when the first chain was loaded. */
    ghost var since4: nat
    ghost var since6: nat

    ghost predicate Valid()
      reads this, rules, nodes, nodes.engine, router, router.v4, router.v6
    {
      && rules.router == router && nodes.router == router && rules.routed && nodes.routed
      && rules.Valid() && nodes.Valid()
      && (rules.loaded != [] ==>
        since4 < |router.v4.views| && since6 < |router.v6.views| && router.ArmedSince(since4, since6))
    }

    constructor (router: TunnelRouter, rules: RoutingManager, nodes: NodeManager.Manager)
      requires rules.router == router && nodes.router == router && rules.routed && nodes.routed
      requires rules.Valid() && nodes.Valid() && rules.loaded == []
      ensures Valid() && this.router == router && this.rules == rules && this.nodes == nodes
    {
      this.router, this.rules, this.nodes, since4, since6 := router, rules, nodes, 0, 0;
    }

    /** Every state of either kernel since the first chain was loaded, with
        every chain that was ever loaded: what is asked into the tunnel leaves
        through it or is refused, and nothing else takes its default route. */
    ghost predicate LeaksNothing()
      requires Valid()
      reads this, rules, nodes, nodes.engine, router, router.v4, router.v6
    {
      forall l :: l in rules.loaded ==> LeaksNothingSince(router, l, since4, since6)
    }

    lemma ValidLeaksNothing()
      requires Valid()
      ensures LeaksNothing()
    {
      hide LeaksNothingSince, Enforces, NodeManager.Manager.Valid, TunnelRouter.ArmedThen;
      forall l | l in rules.loaded ensures LeaksNothingSince(router, l, since4, since6) {
        ArmedLeaksNothing(router, l, since4, since6);
      }
    }

    /** While no node is up and the table was emptied, what the rules in force
        ask into the tunnel is refused. */
    lemma DownIsRefused(a: Arrival)
      requires Valid() && rules.loaded != [] && nodes.up == "" && nodes.emptied
      requires a.family == V6 ==> router.hasIPv6
      requires var k := if a.family == V4 then router.v4 else router.v6;
        StayingIn(a.family, k.net, rules.loaded[|rules.loaded| - 1], a)
      ensures var k := if a.family == V4 then router.v4 else router.v6;
        Decide(k.net, Marked(rules.chain, a)) == Refusal
    {
      hide Decide, Marked, Quiet, Enforces, AskedFor, Sound, Owned;
      var k := if a.family == V4 then router.v4 else router.v6;
      var l := rules.loaded[|rules.loaded| - 1];
      AskedForIsRefused(l.chain, l.rules, l.ingress, k.net, a, router.devices);
    }

    /** While a node is up that was routed undisturbed, and its guard has no hold
        left, what the rules in force ask into the tunnel leaves by the tunnel's
        device exactly when the node lists its destination, or lists nothing. */
    lemma UpGoesThrough(a: Arrival)
      requires Valid() && rules.loaded != [] && nodes.up != "" && nodes.carried.Some?
      requires a.family == V6 ==> router.hasIPv6
      requires var k := if a.family == V4 then router.v4 else router.v6;
        Settled(a.family, k.view) && StayingIn(a.family, k.net, rules.loaded[|rules.loaded| - 1], a)
      ensures var k := if a.family == V4 then router.v4 else router.v6;
        var d := Decide(k.net, Marked(rules.chain, a));
        if nodes.carried.value == [] || TunnelPrefixes.Listed(nodes.carried.value, a.family, a.packet.dst)
        then d.Via? && d.table == TUNNEL && d.route.hop == Dev(nodes.device)
        else d == Refusal
    {
      hide Decide, Quiet, AskedFor, Sound, Best, MarkAfter, Pow2;
      var k := if a.family == V4 then router.v4 else router.v6;
      var l := rules.loaded[|rules.loaded| - 1];
      assert Marked(l.chain, a) == Intended(l.rules, l.ingress, a);
      SettledIsSound(a.family, k.view);
      InMine(k.net, HOLD_RULE);
      VerifiedDecides(a.family, k.net, Marked(l.chain, a), router.devices);
    }

    /** Nothing has failed since: no command, nothing stored, no tunnel. */
    twostate predicate Undisturbed()
      reads rules.outside, nodes.outside, nodes.engine, router.v4, router.v6
    {
      && rules.outside.faults == old(rules.outside.faults) && nodes.outside.faults == old(nodes.outside.faults)
      && nodes.engine.faults == old(nodes.engine.faults) && router.Calm()
    }

    /** What an action does when nothing fails. */
    twostate predicate GoesThrough(action: Action, step: NodeManager.Step)
      reads this, rules, rules.outside, nodes, nodes.outside, nodes.engine, router, router.v4, router.v6
    {
      Undisturbed() ==>
        match action
        case SetRules(wanted) => (forall r :: r in wanted ==> WellFormed(r)) ==> rules.rules == wanted
        case ApplyRules(lan) => old(rules.Applicable(lan)) ==> IsLoaded(old(rules.loaded), rules.loaded, old(rules.rules), lan)
        case Activate(id) => old(nodes.Activatable(id)) ==> step == NodeManager.Step.Activate(id, true)
        case RemoveNode(id) => id in old(nodes.State()).ids ==> step == NodeManager.Remove(id, true)
        case BringBack(id) => old(nodes.Activatable(id)) ==> step == NodeManager.Step.BringBack(id, true)
        case Restart => old(router.Few()) ==> router.Armed()
        case Outside => nodes.stored == old(nodes.stored) && rules.rules == old(rules.rules)
    }

    /** One action. */
    method Act(action: Action) returns (ghost step: NodeManager.Step)
      requires Valid() && (action.SetRules? ==> Marking.Parsed(action.rules))
      modifies rules, rules.outside, nodes, nodes.outside, nodes.engine, router`devices, router.v4, router.v6
      ensures rules.Valid() && nodes.Valid()
      ensures old(rules.loaded) <= rules.loaded && old(router.devices) <= router.devices
      ensures Extends(old(router.v4.views), router.v4.views) && Extends(old(router.v6.views), router.v6.views)
      ensures old(router.Armed()) ==> router.ArmedSince(|old(router.v4.views)|, |old(router.v6.views)|)
      ensures IsStep(action, step) && NodeManager.Follows(old(nodes.State()), step, nodes.State())
      ensures GoesThrough(action, step)
    {
      hide Valid, GoesThrough, IsStep, NodeManager.Follows, TunnelRouter.Armed, TunnelRouter.ArmedThen, RoutingManager.Valid, NodeManager.Manager.Valid;
      if action.Activate? || action.RemoveNode? || action.BringBack? || action.Restart? {
        step := OnNodes(action);
      } else {
        step := OnRules(action);
      }
    }

    /** What reaches the rules, or comes from other programs. */
    method OnRules(action: Action) returns (ghost step: NodeManager.Step)
      requires Valid() && (action.SetRules? ==> Marking.Parsed(action.rules))
      requires action.SetRules? || action.ApplyRules? || action.Outside?
      modifies rules, rules.outside, router.v4, router.v6
      ensures rules.Valid() && nodes.Valid()
      ensures old(rules.loaded) <= rules.loaded && old(router.devices) <= router.devices
      ensures Extends(old(router.v4.views), router.v4.views) && Extends(old(router.v6.views), router.v6.views)
      ensures old(router.Armed()) ==> router.ArmedSince(|old(router.v4.views)|, |old(router.v6.views)|)
      ensures IsStep(action, step) && NodeManager.Follows(old(nodes.State()), step, nodes.State())
      ensures GoesThrough(action, step)
    {
      hide SafeSince, Sound, AllArmed, TunnelRouter.Armed, Owned, Kernel.Valid, TunnelRouter.ArmedThen, Enforces;
      step := NodeManager.Elsewhere;
      ghost var wasArmed := router.Armed();
      router.ArmedSinceNow();
      match action {
        case SetRules(wanted) =>
          var _ := rules.SetRules(wanted);
        case ApplyRules(lan) =>
          var _ := rules.Apply(lan);
        case Outside =>
          OthersAct(router);
      }
      if wasArmed && !action.SetRules? {
        router.SafeStaysArmed();
      }
    }

    /** What reaches the nodes, or comes of a restart. */
    method OnNodes(action: Action) returns (ghost step: NodeManager.Step)
      requires Valid() && (action.Activate? || action.RemoveNode? || action.BringBack? || action.Restart?)
      modifies nodes, nodes.outside, nodes.engine, router`devices, router.v4, router.v6
      ensures rules.Valid() && nodes.Valid()
      ensures old(rules.loaded) <= rules.loaded && old(router.devices) <= router.devices
      ensures Extends(old(router.v4.views), router.v4.views) && Extends(old(router.v6.views), router.v6.views)
      ensures old(router.Armed()) ==> router.ArmedSince(|old(router.v4.views)|, |old(router.v6.views)|)
      ensures IsStep(action, step) && NodeManager.Follows(old(nodes.State()), step, nodes.State())
      ensures GoesThrough(action, step)
    {
      hide SafeSince, Sound, AllArmed, TunnelRouter.Armed, Owned, Kernel.Valid, TunnelRouter.ArmedThen, Enforces;
      hide NodeManager.Activated, NodeManager.Removed, NodeManager.BroughtBack, NodeManager.Ids;
      router.ArmedSinceNow();
      match action {
        case Activate(id) =>
          var ok := nodes.Activate(id);
          step := NodeManager.Step.Activate(id, ok);
        case RemoveNode(id) =>
          var ok := nodes.RemoveNode(id);
          step := NodeManager.Remove(id, ok);
        case BringBack(id) =>
          var done, _ := nodes.BringBackOnce(id);
          step := NodeManager.Step.BringBack(id, done);
        case Restart =>
          nodes.Restart();
          step := NodeManager.Step.Restart;
          var _, _ := nodes.Restore();
      }
    }

    /** One action, and the note of when the first chain came into force. */
    method Do(action: Action) returns (ghost step: NodeManager.Step)
      requires Valid() && (action.SetRules? ==> Marking.Parsed(action.rules))
      modifies this, rules, rules.outside, nodes, nodes.outside, nodes.engine, router`devices, router.v4, router.v6
      ensures Valid() && old(rules.loaded) <= rules.loaded && old(router.devices) <= router.devices
      ensures Extends(old(router.v4.views), router.v4.views) && Extends(old(router.v6.views), router.v6.views)
      ensures old(rules.loaded) != [] ==> since4 == old(since4) && since6 == old(since6)
      ensures old(rules.loaded) == [] && rules.loaded != [] ==>
        since4 == |router.v4.views| - 1 && since6 == |router.v6.views| - 1
      ensures IsStep(action, step) && NodeManager.Follows(old(nodes.State()), step, nodes.State())
      ensures GoesThrough(action, step)
    {
      hide SafeSince, Sound, AllArmed, TunnelRouter.Armed, Owned, Kernel.Valid, TunnelRouter.ArmedThen, Enforces;
      ghost var past4, past6, devices := router.v4.views, router.v6.views, router.devices;
      step := Act(action);
      if old(rules.loaded) != [] {
        router.Rejoin(past4, past6, since4, since6, devices);
      } else if rules.loaded != [] {
        ArmedNow(router);
        since4, since6 := |router.v4.views| - 1, |router.v6.views| - 1;
      }
    }

    /** Any run: from the state in which the rules were first applied, through
        every state of every later action, whatever fails, nothing leaks; and
        the node manager's part of it is a run in the sense of `NodeManager`. */
    method Run(actions: seq<Action>) returns (ghost states: seq<NodeManager.Status>, ghost steps: seq<NodeManager.Step>)
      requires Valid() && forall x :: x in actions && x.SetRules? ==> Marking.Parsed(x.rules)
      modifies this, rules, rules.outside, nodes, nodes.outside, nodes.engine, router`devices, router.v4, router.v6
      ensures Valid() && LeaksNothing()
      ensures old(rules.loaded) <= rules.loaded && old(router.devices) <= router.devices
      ensures Extends(old(router.v4.views), router.v4.views) && Extends(old(router.v6.views), router.v6.views)
      ensures old(rules.loaded) != [] ==> since4 == old(since4) && since6 == old(since6)
      ensures |steps| == |actions| && forall k :: 0 <= k < |actions| ==> IsStep(actions[k], steps[k])
      ensures NodeManager.Run(states, steps) && states[0] == old(nodes.State()) && states[|actions|] == nodes.State()
    {
      hide SafeSince, Sound, AllArmed, TunnelRouter.Armed, Owned, Kernel.Valid, TunnelRouter.ArmedThen, Enforces, NoLeak;
      hide NodeManager.Follows, NodeManager.Manager.Valid, IsStep, RoutingManager.Valid;
      states, steps := [nodes.State()], [];
      for i := 0 to |actions|
        invariant Valid() && old(rules.loaded) <= rules.loaded && old(router.devices) <= router.devices
        invariant Extends(old(router.v4.views), router.v4.views) && Extends(old(router.v6.views), router.v6.views)
        invariant old(rules.loaded) != [] ==> since4 == old(since4) && since6 == old(since6)
        invariant |steps| == i && forall k :: 0 <= k < i ==> IsStep(actions[k], steps[k])
        invariant NodeManager.Run(states, steps) && states[0] == old(nodes.State()) && states[i] == nodes.State()
      {
        ghost var step := Do(actions[i]);
        steps, states := steps + [step], states + [nodes.State()];
      }
      ValidLeaksNothing();
    }
  }
}
