/** The connection's routing over both address families: `Ensure`, `Up` and
    `Down` (internal/adapters/openwrt/tunnel_route.go). */
module TunnelRouting {
  import opened Outcomes
  import opened Prefixes
  import opened KernelRouting
  import opened TunnelRoute
  import TunnelPrefixes

  /** One family's table holds exactly the given networks, all through `dev`. */
  predicate Routes(f: Family, table: seq<Route>, networks: seq<Prefix>, dev: string) {
    && (forall r :: r in table ==> r.hop == Dev(dev) && r.prefix in networks && r.prefix.family == f)
    && (forall p :: p in networks && p.family == f ==> Route(p, Dev(dev)) in table)
  }

  /** Verified, with no hold left, and safe since the entry state. */
  ghost predicate Ready(f: Family, v0: View, v: View, devices: set<string>) {
    Safe(f, v0, v, devices) && Settled(f, v)
  }

  /** Writing the tunnel's own table never touches the guard. */
  lemma RoutingIsSafe(f: Family, v0: View, past: seq<View>, now: seq<View>, devices: set<string>)
    requires 0 < |past| && |now| == |past| + 2 && now == past + [past[|past|-1], now[|past|+1]]
    requires Ready(f, v0, past[|past|-1], devices) && Owned(now[|past|+1], devices)
    requires now[|past|+1] == past[|past|-1].(tunnel := now[|past|+1].tunnel)
    ensures SafeSince(f, v0, now, |past|, devices) && Ready(f, v0, now[|past|+1], devices)
  {
    CommandIsSafe(f, v0, past, now, devices);
  }

  lemma ReadyIsOwned(f: Family, v0: View, v: View, devices: set<string>)
    requires Ready(f, v0, v, devices)
    ensures Owned(v, devices)
  {
  }

  /** Flushing leaves the rules and the refusal alone, in whatever state they are. */
  lemma FlushIsSafe(f: Family, v0: View, past: seq<View>, now: seq<View>, v: View, w: View, devices: set<string>)
    requires 0 < |past| && v == past[|past|-1] && now == past + [v, w]
    requires Safe(f, v0, v, devices) && w == v.(tunnel := w.tunnel)
    requires forall r :: r in w.tunnel ==> r in v.tunnel
    ensures SafeSince(f, v0, now, |past|, devices) && Safe(f, v0, w, devices)
  {
  }

  /** What a flush leaves of an empty table. */
  lemma NoneLeft(table: seq<Route>, left: seq<Route>)
    requires forall r :: r in left ==> r in table
    ensures table == [] ==> left == []
  {
    assert left != [] ==> left[0] in table;
  }

  method Empty(k: Kernel, ghost v0: View, ghost devices: set<string>) returns (ok: bool)
    requires k.Valid() && Safe(k.family, v0, k.view, devices)
    modifies k
    ensures k.Valid() && Extends(old(k.views), k.views)
    ensures Safe(k.family, v0, k.view, devices) && k.view == old(k.view).(tunnel := k.view.tunnel)
    ensures SafeSince(k.family, v0, k.views, |old(k.views)|, devices)
    ensures ok || old(k.view).tunnel == [] ==> k.view.tunnel == []
    ensures k.faults >= old(k.faults) && (k.faults == old(k.faults) <==> ok)
  {
    hide SafeSince, Safe;
    ok := k.Flush();
    NoneLeft(old(k.view).tunnel, k.view.tunnel);
    FlushIsSafe(k.family, v0, old(k.views), k.views, old(k.view), k.view, devices);
  }

  method RouteOne(k: Kernel, p: Prefix, dev: string, ghost v0: View, ghost devices: set<string>) returns (ok: bool)
    requires k.Valid() && Ready(k.family, v0, k.view, devices)
    requires p.Valid() && dev in devices
    modifies k
    ensures k.Valid() && Extends(old(k.views), k.views) && Ready(k.family, v0, k.view, devices)
    ensures SafeSince(k.family, v0, k.views, |old(k.views)|, devices)
    ensures ok ==> k.view.tunnel == Replace(old(k.view).tunnel, Route(p, Dev(dev)))
    ensures k.faults >= old(k.faults) && (k.faults == old(k.faults) ==> ok)
  {
    hide SafeSince, Safe;
    var route := Route(p, Dev(dev));
    ReadyIsOwned(k.family, v0, k.view, devices);
    forall x ensures x in Replace(k.view.tunnel, route) ==> x == route || x in k.view.tunnel {
      ReplaceHas(k.view.tunnel, route, x);
    }
    ok := k.Run(ReplaceRoute(TUNNEL, route));
    RoutingIsSafe(k.family, v0, old(k.views), k.views, devices);
  }

  lemma RoutesGrow(f: Family, table: seq<Route>, networks: seq<Prefix>, p: Prefix, dev: string)
    requires Routes(f, table, networks, dev)
    ensures p.family == f ==> Routes(f, Replace(table, Route(p, Dev(dev))), networks + [p], dev)
    ensures p.family != f ==> Routes(f, table, networks + [p], dev)
  {
    var route := Route(p, Dev(dev));
    forall x
      ensures x in Replace(table, route) ==> x == route || x in table
      ensures x in table && x.prefix != p ==> x in Replace(table, route)
      ensures route in Replace(table, route)
    {
      ReplaceHas(table, route, x);
    }
    assert forall q :: q in networks + [p] <==> q in networks || q == p;
  }

  /** What a table of routes means for an address: it leaves by the device
      exactly when the networks cover it. */
  lemma RoutesReach(f: Family, table: seq<Route>, networks: seq<Prefix>, dev: string, a: nat)
    requires Routes(f, table, networks, dev) && TunnelPrefixes.Routable(networks) && ValidRoutes(table)
    ensures Best(table, a) >= 0 <==> TunnelPrefixes.Covers(networks, f, a)
    ensures Best(table, a) >= 0 ==> table[Best(table, a)].hop == Dev(dev)
  {
    var k := Best(table, a);
    if k >= 0 {
      assert table[k] in table;
    }
    if TunnelPrefixes.Covers(networks, f, a) {
      var p :| p in networks && p.family == f && p.Contains(a);
      assert Route(p, Dev(dev)) in table;
      var i :| 0 <= i < |table| && table[i] == Route(p, Dev(dev));
      assert table[i].prefix.Contains(a);
    }
  }

  ghost predicate AllArmed(f: Family, views: seq<View>, from: nat, devices: set<string>)
    requires from <= |views|
  {
    forall i :: from <= i < |views| ==> Sound(f, views[i]) && Owned(views[i], devices)
  }

  lemma ArmedOn(f: Family, past: seq<View>, now: seq<View>, from: nat, before: set<string>, devices: set<string>)
    requires from <= |past| && Extends(past, now) && before <= devices
    requires AllArmed(f, past, from, before) && AllArmed(f, now, |past|, devices)
    ensures AllArmed(f, now, from, devices)
  {
  }

  class TunnelRouter {
    const v4: Kernel
    const v6: Kernel
    /** Whether the kernel has IPv6; without it that half is skipped. */
    const hasIPv6: bool
    /** The names the tunnel's device has had. */
    ghost var devices: set<string>

    ghost predicate Valid()
      reads this, v4, v6
    {
      && v4 != v6 && v4.family == V4 && v6.family == V6 && v4.Valid() && v6.Valid()
      && Owned(v4.view, devices) && Owned(v6.view, devices)
    }

    /** Marked traffic is guarded in both families, by the panel's rules alone. */
    ghost predicate Armed()
      reads this, v4, v6
    {
      Sound(V4, v4.view) && (hasIPv6 ==> Sound(V6, v6.view))
    }

    constructor (v4: Kernel, v6: Kernel, hasIPv6: bool)
      requires v4 != v6 && v4.family == V4 && v6.family == V6 && v4.Valid() && v6.Valid()
      requires Owned(v4.view, {}) && Owned(v6.view, {})
      ensures Valid() && this.v4 == v4 && this.v6 == v6 && this.hasIPv6 == hasIPv6 && devices == {}
    {
      this.v4, this.v6, this.hasIPv6, devices := v4, v6, hasIPv6, {};
    }

    /** Every state either family's kernel went through since the call began. */
    twostate predicate SafeThroughout()
      requires old(Valid()) && Valid()
      reads this, v4, v6
    {
      && Extends(old(v4.views), v4.views)
      && SafeSince(V4, old(v4.view), v4.views, |old(v4.views)|, devices)
      && Extends(old(v6.views), v6.views)
      && SafeSince(V6, old(v6.view), v6.views, |old(v6.views)|, devices)
    }

    /** Since these points of the record every state is guarded by the panel's
        own rules, with the tunnel's table leading to the tunnel's devices. */
    ghost predicate ArmedSince(from4: nat, from6: nat)
      requires from4 <= |v4.views| && from6 <= |v6.views|
      reads this, v4, v6
    {
      ArmedThen(v4.views, v6.views, from4, from6, devices)
    }

    lemma ArmedSinceNow()
      ensures ArmedSince(|v4.views|, |v6.views|)
    {
    }

    ghost predicate ArmedThen(views4: seq<View>, views6: seq<View>, from4: nat, from6: nat, devices: set<string>)
      requires from4 <= |views4| && from6 <= |views6|
    {
      AllArmed(V4, views4, from4, devices) && (hasIPv6 ==> AllArmed(V6, views6, from6, devices))
    }

    /** Armed over one stretch of the record and over the next is armed over both. */
    lemma Rejoin(past4: seq<View>, past6: seq<View>, from4: nat, from6: nat, before: set<string>)
      requires from4 <= |past4| && from6 <= |past6| && Extends(past4, v4.views) && Extends(past6, v6.views)
      requires before <= devices
      ensures (ArmedThen(past4, past6, from4, from6, before) && ArmedSince(|past4|, |past6|)) ==> ArmedSince(from4, from6)
    {
      if ArmedThen(past4, past6, from4, from6, before) && ArmedSince(|past4|, |past6|) {
        ArmedOn(V4, past4, v4.views, from4, before, devices);
        if hasIPv6 {
          ArmedOn(V6, past6, v6.views, from6, before, devices);
        }
      }
    }

    /** Safety from an armed entry state is staying armed. */
    twostate lemma SafeStaysArmed()
      requires old(Valid()) && Valid() && SafeThroughout() && old(Armed())
      ensures ArmedSince(|old(v4.views)|, |old(v6.views)|)
    {
    }

    /** Two stretches of both families' records, one after the other. */
    lemma Chained(v4past: seq<View>, v6past: seq<View>, v40: View, v60: View, from4: nat, from6: nat)
      requires from4 <= |v4past| && from6 <= |v6past| && Extends(v4past, v4.views) && Extends(v6past, v6.views)
      requires SafeSince(V4, v40, v4past, from4, devices) && SafeSince(V4, v40, v4.views, |v4past|, devices)
      requires SafeSince(V6, v60, v6past, from6, devices) && SafeSince(V6, v60, v6.views, |v6past|, devices)
      ensures SafeSince(V4, v40, v4.views, from4, devices) && SafeSince(V6, v60, v6.views, from6, devices)
    {
      Continue(V4, v40, v4past, v4.views, from4, devices);
      Continue(V6, v60, v6past, v6.views, from6, devices);
    }

    /** Since then no command has failed, in either family. */
    twostate predicate Calm()
      reads v4, v6
    {
      v4.faults == old(v4.faults) && v6.faults == old(v6.faults)
    }

    ghost predicate Few()
      reads this, v4, v6
    {
      TunnelRoute.Few(v4.view) && (hasIPv6 ==> TunnelRoute.Few(v6.view))
    }

    twostate predicate FaultsOnlyGrow()
      reads v4, v6
    {
      v4.faults >= old(v4.faults) && v6.faults >= old(v6.faults)
    }

    /** Both tables lead exactly the connection's addresses to the device. */
    ghost predicate Carries(allowed: seq<Option<Prefix>>, dev: string)
      reads this, v4, v6
    {
      Reaches(V4, v4.view.tunnel, allowed, dev) && (hasIPv6 ==> Reaches(V6, v6.view.tunnel, allowed, dev))
    }

    lemma RoutedCarries(networks: seq<Prefix>, allowed: seq<Option<Prefix>>, dev: string)
      requires Valid() && TunnelPrefixes.Parsed(allowed) && TunnelPrefixes.Routable(networks)
      requires Routes(V4, v4.view.tunnel, networks, dev) && (hasIPv6 ==> Routes(V6, v6.view.tunnel, networks, dev))
      requires allowed != [] ==> TunnelPrefixes.Exact(networks, allowed)
      requires allowed == [] ==> forall f: Family, a: nat :: a < Pow2(Width(f)) ==> TunnelPrefixes.Covers(networks, f, a)
      ensures Carries(allowed, dev)
    {
      hide Routes, Reaches, TunnelPrefixes.Covers, TunnelPrefixes.Exact, Pow2, Owned;
      RoutesReachListed(V4, v4.view.tunnel, networks, allowed, dev);
      if hasIPv6 {
        RoutesReachListed(V6, v6.view.tunnel, networks, allowed, dev);
      }
    }

    /** The rules of both families, put in place. */
    method Ensure() returns (ok: bool)
      requires Valid()
      modifies v4, v6
      ensures Valid() && SafeThroughout()
      ensures Safe(V4, old(v4.view), v4.view, devices) && Safe(V6, old(v6.view), v6.view, devices)
      ensures v4.view.tunnel == old(v4.view).tunnel && v6.view.tunnel == old(v6.view).tunnel
      ensures ok ==> Settled(V4, v4.view) && (hasIPv6 ==> Settled(V6, v6.view))
      ensures ok ==> Armed()
      ensures old(Armed()) ==> Armed()
      ensures FaultsOnlyGrow() && (Calm() && old(Few()) ==> ok)
    {
      hide SafeSince, Settled, Sound, TunnelRoute.Few;
      NothingYet(V6, v6.view, v6.views, devices);
      EntryIsSafe(V6, v6.view, devices);
      ok := EnsureFamily(v4, devices);
      SafeIsEnough(V4, old(v4.view), v4.view);
      if hasIPv6 {
        var ok6 := EnsureFamily(v6, devices);
        SafeIsEnough(V6, old(v6.view), v6.view);
        ok := ok && ok6;
      }
    }

    ghost predicate TableEmpty()
      reads this, v4, v6
    {
      v4.view.tunnel == [] && (hasIPv6 ==> v6.view.tunnel == [])
    }

    /** `flush`: errors are not looked at; an empty table may well answer with
        one. `flushed` are the families that reported success. */
    method FlushBoth(ghost v40: View, ghost v60: View) returns (ghost flushed: set<Family>)
      requires Valid() && Safe(V4, v40, v4.view, devices) && Safe(V6, v60, v6.view, devices)
      modifies v4, v6
      ensures Valid() && Extends(old(v4.views), v4.views) && Extends(old(v6.views), v6.views)
      ensures SafeSince(V4, v40, v4.views, |old(v4.views)|, devices)
      ensures SafeSince(V6, v60, v6.views, |old(v6.views)|, devices)
      ensures Safe(V4, v40, v4.view, devices) && Safe(V6, v60, v6.view, devices)
      ensures v4.view == old(v4.view).(tunnel := v4.view.tunnel)
      ensures v6.view == old(v6.view).(tunnel := v6.view.tunnel)
      ensures V4 in flushed || old(v4.view).tunnel == [] ==> v4.view.tunnel == []
      ensures V6 in flushed || old(v6.view).tunnel == [] ==> v6.view.tunnel == []
      ensures FaultsOnlyGrow() && (Calm() ==> V4 in flushed && (hasIPv6 ==> V6 in flushed))
    {
      hide SafeSince, Safe, Kernel.Valid;
      NothingYet(V6, v60, v6.views, devices);
      var ok := Empty(v4, v40, devices);
      flushed := if ok then {V4} else {};
      SafeIsEnough(V4, v40, v4.view);
      if hasIPv6 {
        ok := Empty(v6, v60, devices);
        flushed := if ok then flushed + {V6} else flushed;
        SafeIsEnough(V6, v60, v6.view);
      }
    }

    /** Takes the connection's routes out; the rules stay, so what they mark is
        refused. */
    method Down() returns (ghost flushed: set<Family>)
      requires Valid()
      modifies v4, v6
      ensures Valid() && SafeThroughout()
      ensures Safe(V4, old(v4.view), v4.view, devices) && Safe(V6, old(v6.view), v6.view, devices)
      ensures v4.view.rules == old(v4.view.rules) && v6.view.rules == old(v6.view.rules)
      ensures old(Armed()) ==> Armed()
      ensures old(Few()) ==> Few()
      ensures V4 in flushed || old(v4.view).tunnel == [] ==> v4.view.tunnel == []
      ensures V6 in flushed || old(v6.view).tunnel == [] ==> v6.view.tunnel == []
      ensures FaultsOnlyGrow() && (Calm() ==> V4 in flushed && (hasIPv6 ==> V6 in flushed))
    {
      hide SafeSince, Sound, TunnelRoute.Few, Safe, Owned, Kernel.Valid;
      EntryIsSafe(V4, v4.view, devices);
      EntryIsSafe(V6, v6.view, devices);
      flushed := FlushBoth(v4.view, v6.view);
      FewByRules(old(v4.view), v4.view);
      FewByRules(old(v6.view), v6.view);
      SafeIsEnough(V4, old(v4.view), v4.view);
      SafeIsEnough(V6, old(v6.view), v6.view);
    }

    /** Routes one network on its family's table, or skips it. */
    method RouteEither(p: Prefix, dev: string, ghost v40: View, ghost v60: View) returns (ok: bool)
      requires Valid() && Ready(V4, v40, v4.view, devices) && (hasIPv6 ==> Ready(V6, v60, v6.view, devices))
      requires p.Valid() && dev in devices
      modifies v4, v6
      ensures Valid() && Extends(old(v4.views), v4.views) && Extends(old(v6.views), v6.views)
      ensures SafeSince(V4, v40, v4.views, |old(v4.views)|, devices)
      ensures SafeSince(V6, v60, v6.views, |old(v6.views)|, devices)
      ensures Ready(V4, v40, v4.view, devices) && (hasIPv6 ==> Ready(V6, v60, v6.view, devices))
      ensures !hasIPv6 ==> v6.view == old(v6.view)
      ensures ok ==> v4.view.tunnel == RoutedBy(V4, old(v4.view).tunnel, p, dev)
      ensures ok && hasIPv6 ==> v6.view.tunnel == RoutedBy(V6, old(v6.view).tunnel, p, dev)
      ensures FaultsOnlyGrow() && (Calm() ==> ok)
    {
      hide SafeSince, Safe, Settled, Kernel.Valid;
      NothingYet(V4, v40, v4.views, devices);
      NothingYet(V6, v60, v6.views, devices);
      if p.family == V4 {
        ok := RouteOne(v4, p, dev, v40, devices);
        ReadyIsOwned(V4, v40, v4.view, devices);
      } else if hasIPv6 {
        ok := RouteOne(v6, p, dev, v60, devices);
        ReadyIsOwned(V6, v60, v6.view, devices);
      } else {
        ok := true;
      }
    }

    /** Routes the connection on its device: exactly its networks, a default
        route among them when they are everything, and all of the internet when
        none are given. Refused unless the guard is verified first. */
    method Up(dev: string, allowed: seq<Option<Prefix>>)
      returns (ok: bool, ghost flushed: set<Family>, ghost networks: seq<Prefix>)
      requires Valid() && TunnelPrefixes.Parsed(allowed)
      modifies this`devices, v4, v6
      ensures devices == old(devices) + {dev} && Valid() && SafeThroughout()
      ensures old(Armed()) ==> Armed()
      ensures ok ==> Armed() && Settled(V4, v4.view) && (hasIPv6 ==> Settled(V6, v6.view))
      ensures ok ==> TunnelPrefixes.Routable(networks)
      ensures ok && allowed != [] ==> TunnelPrefixes.Exact(networks, allowed) && TunnelPrefixes.Errors(allowed) == 0
      ensures ok && allowed == [] ==> forall f: Family, a: nat :: a < Pow2(Width(f)) ==> TunnelPrefixes.Covers(networks, f, a)
      ensures FaultsOnlyGrow() && (Calm() && old(Few()) && TunnelPrefixes.Errors(allowed) == 0 ==> ok)
      ensures Calm() && ok ==> V4 in flushed && (hasIPv6 ==> V6 in flushed)
      ensures ok && (V4 in flushed || old(v4.view).tunnel == []) ==> Routes(V4, v4.view.tunnel, networks, dev)
      ensures ok && hasIPv6 && (V6 in flushed || old(v6.view).tunnel == []) ==> Routes(V6, v6.view.tunnel, networks, dev)
    {
      hide SafeSince, Sound, Settled, Kernel.Valid, Owned, Routes, Safe, TunnelRoute.Few, TunnelPrefixes.Exact;
      ghost var v40, v60, from4, from6 := v4.view, v6.view, |v4.views|, |v6.views|;
      MoreDevices(v4.view, dev);
      MoreDevices(v6.view, dev);
      devices := devices + {dev};
      networks, flushed := [], {};
      ok := Ensure();
      if !ok {
        return;
      }
      ghost var past4, past6 := v4.views, v6.views;
      ghost var s4, s6 := v4.view, v6.view;
      flushed := FlushBoth(v40, v60);
      ghost var empty4, empty6 := v4.view.tunnel == [], v6.view.tunnel == [];
      FlushKeepsSettled(V4, s4, v4.view);
      if hasIPv6 {
        FlushKeepsSettled(V6, s6, v6.view);
      }
      Chained(past4, past6, v40, v60, from4, from6);
      var prefixes, errors := TunnelPrefixes.Normalize(if allowed == [] then Internet() else allowed);
      networks := prefixes;
      if allowed == [] {
        InternetIsAll(prefixes);
      }
      NoRoutes(V4, dev);
      NoRoutes(V6, dev);
      for i := 0 to |prefixes|
        invariant devices == old(devices) + {dev}
        invariant FaultsOnlyGrow() && (Calm() && TunnelPrefixes.Errors(allowed) == 0 ==> errors == 0)
        invariant errors == 0 && allowed != [] ==> TunnelPrefixes.Errors(allowed) == 0
        invariant Calm() ==> V4 in flushed && (hasIPv6 ==> V6 in flushed)
        invariant Valid() && Extends(old(v4.views), v4.views) && Extends(old(v6.views), v6.views)
        invariant SafeSince(V4, v40, v4.views, from4, devices) && SafeSince(V6, v60, v6.views, from6, devices)
        invariant Ready(V4, v40, v4.view, devices) && (hasIPv6 ==> Ready(V6, v60, v6.view, devices))
        invariant !hasIPv6 ==> Safe(V6, v60, v6.view, devices)
        invariant errors == 0 && empty4 ==> Routes(V4, v4.view.tunnel, prefixes[..i], dev)
        invariant errors == 0 && empty6 && hasIPv6 ==> Routes(V6, v6.view.tunnel, prefixes[..i], dev)
      {
        past4, past6 := v4.views, v6.views;
        ghost var t4, t6 := v4.view.tunnel, v6.view.tunnel;
        var routed := RouteEither(prefixes[i], dev, v40, v60);
        if !routed {
          errors := errors + 1;
        }
        Chained(past4, past6, v40, v60, from4, from6);
        assert prefixes[..i+1] == prefixes[..i] + [prefixes[i]];
        if errors == 0 && empty4 {
          RoutesGrow(V4, t4, prefixes[..i], prefixes[i], dev);
        }
        if errors == 0 && empty6 && hasIPv6 {
          RoutesGrow(V6, t6, prefixes[..i], prefixes[i], dev);
        }
      }
      assert prefixes[..|prefixes|] == prefixes;
      ok := errors == 0;
      SafeIsEnough(V4, v40, v4.view);
      SafeIsEnough(V6, v60, v6.view);
    }

    lemma MoreDevices(v: View, dev: string)
      requires Owned(v, devices)
      ensures Owned(v, devices + {dev})
    {
    }

    lemma FlushKeepsSettled(f: Family, v: View, w: View)
      requires Settled(f, v) && w == v.(tunnel := w.tunnel)
      ensures Settled(f, w)
    {
    }

    lemma SafeIsEnough(f: Family, v0: View, v: View)
      requires Safe(f, v0, v, devices)
      ensures Owned(v, devices) && (Sound(f, v0) ==> Sound(f, v))
      ensures Settled(f, v) ==> Sound(f, v)
    {
      if Settled(f, v) {
        SettledIsSound(f, v);
      }
    }
  }

  lemma FewByRules(v: View, w: View)
    requires v.rules == w.rules
    ensures TunnelRoute.Few(v) <==> TunnelRoute.Few(w)
  {
  }

  /** The table sends an address by the device exactly when the connection lists
      it, or lists nothing. */
  ghost predicate Reaches(f: Family, table: seq<Route>, allowed: seq<Option<Prefix>>, dev: string) {
    && TunnelPrefixes.Parsed(allowed) && ValidRoutes(table)
    && forall a: nat :: a < Pow2(Width(f)) ==>
      (Best(table, a) >= 0 <==> allowed == [] || TunnelPrefixes.Listed(allowed, f, a))
      && (Best(table, a) >= 0 ==> table[Best(table, a)].hop == Dev(dev))
  }

  lemma RoutesReachListed(f: Family, table: seq<Route>, networks: seq<Prefix>, allowed: seq<Option<Prefix>>, dev: string)
    requires Routes(f, table, networks, dev) && TunnelPrefixes.Routable(networks) && ValidRoutes(table)
    requires TunnelPrefixes.Parsed(allowed) && (allowed != [] ==> TunnelPrefixes.Exact(networks, allowed))
    requires allowed == [] ==> forall f: Family, a: nat :: a < Pow2(Width(f)) ==> TunnelPrefixes.Covers(networks, f, a)
    ensures Reaches(f, table, allowed, dev)
  {
    hide Best, Pow2, TunnelPrefixes.Covers, TunnelPrefixes.Listed, Routes, ValidRoutes;
    forall a: nat | a < Pow2(Width(f))
      ensures Best(table, a) >= 0 <==> allowed == [] || TunnelPrefixes.Listed(allowed, f, a)
      ensures Best(table, a) >= 0 ==> table[Best(table, a)].hop == Dev(dev)
    {
      RoutesReach(f, table, networks, dev, a);
    }
  }

  lemma NoRoutes(f: Family, dev: string)
    ensures Routes(f, [], [], dev)
  {
  }

  /** What a connection that lists no networks is taken to list. */
  function Internet(): (r: seq<Option<Prefix>>)
    ensures TunnelPrefixes.Parsed(r)
  {
    [Some(Everything(V4)), Some(Everything(V6))]
  }

  lemma InternetIsAll(networks: seq<Prefix>)
    requires TunnelPrefixes.Routable(networks) && TunnelPrefixes.Exact(networks, Internet())
    ensures forall f: Family, a: nat :: a < Pow2(Width(f)) ==> TunnelPrefixes.Covers(networks, f, a)
    ensures TunnelPrefixes.Errors(Internet()) == 0
  {
    forall f: Family, a: nat | a < Pow2(Width(f)) ensures TunnelPrefixes.Listed(Internet(), f, a) {
      EverythingContains(f, a);
      assert Internet()[if f == V4 then 0 else 1] == Some(Everything(f));
    }
    var x := Internet();
    assert x[..1][..0] == [] && x[..1][0] == x[0];
    assert TunnelPrefixes.Errors(x[..1]) == 0;
  }

  function RoutedBy(f: Family, table: seq<Route>, p: Prefix, dev: string): seq<Route> {
    if p.family == f then Replace(table, Route(p, Dev(dev))) else table
  }
}
