/** The node the tunnel runs, and its return after a restart
    (internal/adapters/openwrt/vpn.go). */
module NodeManager {
  import opened Outcomes
  import opened Media
  import opened Prefixes
  import opened KernelRouting
  import opened TunnelRoute
  import opened TunnelRouting
  import TunnelPrefixes

  datatype Node = Node(id: string, allowed: seq<Option<Prefix>>)

  /** The stored document: the nodes, and the one chosen ("" for none). */
  datatype Document = Document(nodes: seq<Node>, chosen: string)

  predicate ValidDocument(d: Document) {
    && (forall i :: 0 <= i < |d.nodes| ==> d.nodes[i].id != "" && TunnelPrefixes.Parsed(d.nodes[i].allowed))
    && (forall i, j :: 0 <= i < j < |d.nodes| ==> d.nodes[i].id != d.nodes[j].id)
  }

  function Ids(nodes: seq<Node>): set<string> {
    set i | 0 <= i < |nodes| :: nodes[i].id
  }

  /** What can be seen of the manager between two calls. */
  datatype Status = Status(up: string, running: Option<string>, chosen: string, ids: set<string>)

  predicate Consistent(s: Status) {
    s.running == if s.up == "" then None else Some(s.up)
  }

  function Idle(s: Status): Status { s.(up := "", running := None) }

  function Running(s: Status, id: string): Status { s.(up := id, running := Some(id)) }

  /** Activating a node: success is that node up and chosen; a failure leaves
      the choice, and the old node up, none, or the new one unsaved. */
  predicate Activated(s: Status, id: string, ok: bool, t: Status) {
    if ok then id in s.ids && t == Running(s, id).(chosen := id)
    else t == s || t == Idle(s) || (id in s.ids && t == Running(s, id))
  }

  /** Removing one: it is no longer up, chosen or listed. A failed save leaves
      the stored part. */
  predicate Removed(s: Status, id: string, ok: bool, t: Status) {
    var stopped := if s.up == id && id in s.ids then Idle(s) else s;
    if ok then
      id in s.ids && t == stopped.(ids := s.ids - {id}, chosen := if s.chosen == id then "" else s.chosen)
    else t == s || t == stopped
  }

  /** One attempt to bring a node back. Once somebody chose otherwise, or a
      node is up, it does nothing and is the last. */
  predicate BroughtBack(s: Status, id: string, done: bool, t: Status) {
    if s.up != "" || s.chosen != id then t == s
    else Activated(s, id, done, t)
  }

  datatype Step =
    | Activate(id: string, ok: bool)
    | Remove(id: string, ok: bool)
    | BringBack(id: string, done: bool)
    | Restart
    | Elsewhere // something that is not the node manager's

  predicate Follows(s: Status, step: Step, t: Status) {
    match step
    case Activate(id, ok) => Activated(s, id, ok, t)
    case Remove(id, ok) => Removed(s, id, ok, t)
    case BringBack(id, done) => BroughtBack(s, id, done, t)
    case Restart => t == Idle(s)
    case Elsewhere => t == s
  }

  predicate Run(states: seq<Status>, steps: seq<Step>) {
    |states| == |steps| + 1 && forall k :: 0 <= k < |steps| ==> Follows(states[k], steps[k], states[k+1])
  }

  /** Over every run in which nobody successfully activates `id` again: once it
      is not the chosen node, no attempt to bring it back changes anything. */
  lemma {:induction false} NeverBroughtBack(states: seq<Status>, steps: seq<Step>, id: string, n: nat)
    requires Run(states, steps) && n <= |steps| && id != ""
    requires states[0].chosen != id
    requires forall k :: 0 <= k < |steps| ==> steps[k] != Activate(id, true)
    ensures forall k :: 0 <= k <= n ==> states[k].chosen != id
    ensures forall k :: 0 <= k < n && steps[k].BringBack? && steps[k].id == id ==> states[k+1] == states[k]
  {
    if n > 0 {
      NeverBroughtBack(states, steps, id, n - 1);
      assert Follows(states[n-1], steps[n-1], states[n]);
    }
  }

  /** Over every run, `up` names exactly the node the engine runs. */
  lemma {:induction false} AlwaysConsistent(states: seq<Status>, steps: seq<Step>, n: nat)
    requires Run(states, steps) && n <= |steps| && Consistent(states[0]) && "" !in states[0].ids
    ensures Consistent(states[n]) && "" !in states[n].ids
  {
    if n > 0 {
      AlwaysConsistent(states, steps, n - 1);
      assert Follows(states[n-1], steps[n-1], states[n]);
    }
  }

  /** The engine: one tunnel at a time. */
  class Engine {
    var running: Option<string>
    /** How often a tunnel did not come up. */
    ghost var faults: nat

    constructor ()
      ensures running == None
    {
      running, faults := None, 0;
    }

    /** It is an error to call this on a running engine; a failure leaves it down. */
    method Up(id: string) returns (ok: bool)
      requires running == None
      modifies this
      ensures running == if ok then Some(id) else None
      ensures faults == if ok then old(faults) else old(faults) + 1
    {
      ok := *;
      running := if ok then Some(id) else None;
      if !ok {
        faults := faults + 1;
      }
    }

    method Down()
      modifies this
      ensures running == None && faults == old(faults)
    {
      running := None;
    }
  }

  class Manager {
    const engine: Engine
    const router: TunnelRouter
    /** Where the document is stored. */
    const outside: Medium
    /** Whether the engine has an interface to route; a userspace one has none. */
    const routed: bool
    const device: string
    var stored: Document
    var up: string
    /** Whether the tunnel's table was left empty when the last node went down. */
    ghost var emptied: bool
    /** What the node that is up lists, if routing into it went undisturbed. */
    ghost var carried: Option<seq<Option<Prefix>>>

    ghost predicate Valid()
      reads this, engine, router, router.v4, router.v6
    {
      && router.Valid() && ValidDocument(stored)
      && engine.running == (if up == "" then None else Some(up))
      && (up == "" && emptied ==> router.TableEmpty())
      && (up != "" && carried.Some? ==> router.Carries(carried.value, device))
    }

    ghost function State(): Status
      reads this, engine
    {
      Status(up, engine.running, stored.chosen, Ids(stored.nodes))
    }

    constructor (router: TunnelRouter, outside: Medium, routed: bool, device: string, stored: Document)
      requires router.Valid() && ValidDocument(stored)
      ensures Valid() && fresh(engine) && this.router == router && this.stored == stored && up == ""
      ensures this.outside == outside && this.routed == routed && this.device == device
    {
      this.router, this.outside, this.routed, this.device, this.stored, up := router, outside, routed, device, stored, "";
      emptied, carried := router.TableEmpty(), None;
      engine := new Engine();
    }

    /** Every state of the kernel since the call began is armed, if it was. */
    twostate predicate StaysArmed()
      requires old(router.Valid()) && router.Valid()
      reads this, router, router.v4, router.v6
    {
      && Extends(old(router.v4.views), router.v4.views) && Extends(old(router.v6.views), router.v6.views)
      && old(router.devices) <= router.devices
      && (old(router.Armed()) ==> router.Armed() && router.ArmedSince(|old(router.v4.views)|, |old(router.v6.views)|))
    }

    /** The routing can be put in place as long as every command works. */
    ghost predicate Routable()
      reads router, router.v4, router.v6
    {
      routed ==> router.Few()
    }

    /** When no node is up any more, and none was before with its table full, the
        tunnel's table is empty, if every command worked. */
    twostate predicate TakesRoutesOut()
      reads this, router.v4, router.v6
    {
      up == "" && router.Calm() && (old(up) != "" || old(emptied)) ==> emptied
    }

    method Unroute() returns (ghost flushed: set<Family>)
      requires router.Valid() && up == ""
      requires ValidDocument(stored) && engine.running == None
      modifies this`emptied, router.v4, router.v6
      ensures Valid() && StaysArmed()
      ensures emptied == router.TableEmpty()
      ensures old(router.TableEmpty()) ==> emptied
      ensures V4 in flushed && (router.hasIPv6 ==> V6 in flushed) ==> emptied
      ensures router.FaultsOnlyGrow() && (router.Calm() ==> emptied) && (old(Routable()) ==> Routable())
    {
      hide SafeSince, Sound, Safe, Owned, Kernel.Valid, TunnelRouter.Few, AllArmed;
      flushed := router.Down();
      emptied := router.TableEmpty();
      if old(router.Armed()) {
        router.SafeStaysArmed();
      }
    }

    /** Fills the connection's table for an engine with an interface. */
    method Route(allowed: seq<Option<Prefix>>) returns (ok: bool)
      requires router.Valid() && TunnelPrefixes.Parsed(allowed)
      modifies router`devices, router.v4, router.v6
      ensures router.Valid() && StaysArmed()
      ensures ok && routed ==> router.Armed()
      ensures router.FaultsOnlyGrow()
      ensures router.Calm() && old(Routable()) && TunnelPrefixes.Errors(allowed) == 0 ==> ok
      ensures router.Calm() && ok && routed ==> router.Carries(allowed, device)
    {
      hide SafeSince, Sound, TunnelRouter.Few, TunnelRouter.Carries, TunnelPrefixes.Exact, TunnelPrefixes.Covers, Pow2, Routes, Kernel.Valid, Safe;
      ok := true;
      if routed {
        ghost var flushed, networks;
        ok, flushed, networks := router.Up(device, allowed);
        if router.Calm() && ok {
          router.RoutedCarries(networks, allowed, device);
        }
        if old(router.Armed()) {
          router.SafeStaysArmed();
        }
      }
    }

    /** Routes into the running engine, or takes it down again: a tunnel nothing
        routes into is not reported as up. */
    method Connect(allowed: seq<Option<Prefix>>) returns (ok: bool)
      requires router.Valid() && TunnelPrefixes.Parsed(allowed) && ValidDocument(stored) && up == ""
      modifies this`emptied, engine, router`devices, router.v4, router.v6
      ensures router.Valid() && StaysArmed()
      ensures ok ==> engine.running == old(engine.running) && (routed ==> router.Armed())
      ensures !ok ==> Valid() && engine.running == None
      ensures !ok && router.Calm() ==> emptied
      ensures ok ==> emptied == old(emptied)
      ensures engine.faults == old(engine.faults) && router.FaultsOnlyGrow()
      ensures router.Calm() && old(Routable()) && TunnelPrefixes.Errors(allowed) == 0 ==> ok
      ensures router.Calm() && ok && routed ==> router.Carries(allowed, device)
    {
      hide SafeSince, Sound, TunnelRouter.Carries, AllArmed, TunnelRouter.Armed, Owned, Kernel.Valid, Routable;
      ok := Route(allowed);
      if !ok {
        ghost var past4, past6, devices := router.v4.views, router.v6.views, router.devices;
        engine.Down();
        var _ := Unroute();
        router.Rejoin(past4, past6, |old(router.v4.views)|, |old(router.v6.views)|, devices);
      }
    }

    /** Takes the running tunnel down, and its routes out. */
    method Stop()
      requires Valid()
      modifies this`up, this`emptied, engine, router.v4, router.v6
      ensures Valid() && StaysArmed() && State() == Idle(old(State()))
      ensures router.Calm() ==> emptied
      ensures engine.faults == old(engine.faults) && router.FaultsOnlyGrow() && (old(Routable()) ==> Routable())
    {
      hide SafeSince, Sound, TunnelRouter.Carries, AllArmed, TunnelRouter.Armed, Owned, Kernel.Valid, TunnelRouter.ArmedThen, Routable, Ids, TunnelRouter.TableEmpty;
      engine.Down();
      up := "";
      var _ := Unroute();
    }

    /** Brings a tunnel up where none is, and routes into it. */
    method Start(id: string, allowed: seq<Option<Prefix>>) returns (ok: bool)
      requires Valid() && up == "" && TunnelPrefixes.Parsed(allowed)
      modifies this`emptied, engine, router`devices, router.v4, router.v6
      ensures router.Valid() && StaysArmed()
      ensures ok ==> engine.running == Some(id) && (routed ==> router.Armed())
      ensures !ok ==> Valid() && engine.running == None
      ensures !ok && router.Calm() && old(emptied) ==> emptied
      ensures engine.faults >= old(engine.faults) && router.FaultsOnlyGrow()
      ensures engine.faults == old(engine.faults) && router.Calm() && old(Routable()) && TunnelPrefixes.Errors(allowed) == 0 ==> ok
      ensures router.Calm() && ok && routed ==> router.Carries(allowed, device)
    {
      hide SafeSince, Sound, TunnelRouter.Carries, AllArmed, TunnelRouter.Armed, Owned, Kernel.Valid, TunnelRouter.ArmedThen, Routable, Ids, TunnelRouter.TableEmpty;
      router.ArmedSinceNow();
      ok := engine.Up(id);
      if ok {
        ok := Connect(allowed);
      }
    }

    /** Nothing has failed since: neither storing nor the engine nor a command. */
    twostate predicate Undisturbed()
      reads outside, engine, router.v4, router.v6
    {
      outside.faults == old(outside.faults) && engine.faults == old(engine.faults) && router.Calm()
    }

    /** A node of the document whose networks all parse. */
    ghost predicate Activatable(id: string)
      reads this, router, router.v4, router.v6
    {
      var at := Find(stored.nodes, id);
      at >= 0 && TunnelPrefixes.Errors(stored.nodes[at].allowed) == 0 && Routable()
    }

    /** Brings a node up in place of the one that is. */
    method Switch(id: string, allowed: seq<Option<Prefix>>) returns (ok: bool)
      requires Valid() && id != "" && TunnelPrefixes.Parsed(allowed)
      modifies this`up, this`emptied, this`carried, engine, router`devices, router.v4, router.v6
      ensures Valid() && StaysArmed()
      ensures State() == if ok then Running(old(State()), id) else Idle(old(State()))
      ensures TakesRoutesOut()
      ensures ok && routed ==> router.Armed()
      ensures engine.faults >= old(engine.faults) && router.FaultsOnlyGrow()
      ensures engine.faults == old(engine.faults) && router.Calm() && old(Routable()) && TunnelPrefixes.Errors(allowed) == 0 ==> ok
      ensures router.Calm() && ok && routed ==> carried == Some(allowed)
    {
      hide SafeSince, Sound, TunnelRouter.Carries, AllArmed, TunnelRouter.Armed, Owned, Kernel.Valid, Ids, TunnelRouter.ArmedThen, TunnelRouter.Valid, Routable, TunnelPrefixes.Errors, TunnelPrefixes.Parsed, TunnelRouter.TableEmpty, ValidDocument;
      router.ArmedSinceNow();
      if up != "" {
        Stop();
      }
      ghost var past4, past6, devices := router.v4.views, router.v6.views, router.devices;
      ok := Start(id, allowed);
      router.Rejoin(past4, past6, |old(router.v4.views)|, |old(router.v6.views)|, devices);
      if ok {
        up, carried := id, if routed && router.Calm() then Some(allowed) else None;
      }
    }

    /** Brings a node up in place of the one that is, and records the choice. */
    method Activate(id: string) returns (ok: bool)
      requires Valid()
      modifies this`up, this`stored, this`emptied, this`carried, outside, engine, router`devices, router.v4, router.v6
      ensures Valid() && StaysArmed()
      ensures Activated(old(State()), id, ok, State())
      ensures ok && Undisturbed() && routed ==> carried == Some(old(stored).nodes[Find(old(stored).nodes, id)].allowed)
      ensures ok && routed ==> router.Armed()
      ensures TakesRoutesOut()
      ensures outside.faults >= old(outside.faults)
      ensures Undisturbed() && old(Activatable(id)) ==> ok
    {
      hide SafeSince, Sound, TunnelRouter.Carries, AllArmed, TunnelRouter.Armed, Owned, Kernel.Valid, Ids, TunnelRouter.ArmedThen, TunnelRouter.Valid, Routable, TunnelPrefixes.Errors, TunnelPrefixes.Parsed, TunnelRouter.TableEmpty, ValidDocument;
      router.ArmedSinceNow();
      var loaded := outside.Try();
      var at := Find(stored.nodes, id);
      if !loaded || at < 0 {
        return false;
      }
      NodeIsSound(stored, at);
      ok := Switch(id, stored.nodes[at].allowed);
      if !ok {
        return;
      }
      ok := outside.Try();
      if ok {
        stored := stored.(chosen := id);
      }
    }

    /** Takes a node out; the tunnel it runs is torn down first, and it does not
        stay the one to bring back. */
    method RemoveNode(id: string) returns (ok: bool)
      requires Valid()
      modifies this`up, this`stored, this`emptied, outside, engine, router.v4, router.v6
      ensures Valid() && StaysArmed()
      ensures Removed(old(State()), id, ok, State())
      ensures TakesRoutesOut()
      ensures outside.faults == old(outside.faults) ==> (ok <==> id in old(State()).ids)
    {
      hide SafeSince, Sound, TunnelRouter.Carries, AllArmed, TunnelRouter.Armed, Owned, Kernel.Valid;
      router.ArmedSinceNow();
      var loaded := outside.Try();
      var at := Find(stored.nodes, id);
      if !loaded || at < 0 {
        return false;
      }
      if up == id {
        Stop();
      }
      IdsWithout(stored.nodes, at);
      ok := outside.Try();
      if ok {
        stored := Document(stored.nodes[..at] + stored.nodes[at+1..], if stored.chosen == id then "" else stored.chosen);
      }
    }

    /** One attempt of the background loop; `done` ends it. A choice made in the
        meantime, or a node already up, ends it without touching anything. */
    method BringBackOnce(id: string) returns (done: bool, ghost loaded: bool)
      requires Valid()
      modifies this`up, this`stored, this`emptied, this`carried, outside, engine, router`devices, router.v4, router.v6
      ensures Valid() && StaysArmed()
      ensures outside.faults == old(outside.faults) ==> loaded
      ensures !loaded ==> !done && unchanged(this) && unchanged(engine) && unchanged(router.v4) && unchanged(router.v6)
      ensures Undisturbed() && old(Activatable(id)) ==> done
      ensures BroughtBack(old(State()), id, done, State())
      ensures TakesRoutesOut()
      ensures loaded && (old(up) != "" || old(stored).chosen != id) ==>
        done && unchanged(this) && unchanged(engine) && unchanged(router.v4) && unchanged(router.v6)
      ensures done && old(up) == "" && old(stored).chosen == id ==> up == id && (routed ==> router.Armed())
    {
      hide SafeSince, Sound, TunnelRouter.Carries, AllArmed, TunnelRouter.Armed, Owned, Kernel.Valid;
      router.ArmedSinceNow();
      var read := outside.Try();
      loaded := read;
      if !read {
        return false, loaded;
      }
      if up != "" || stored.chosen != id {
        return true, loaded;
      }
      done := Activate(id);
    }

    /** The daemon is started again: what memory held is gone, the stored
        document and the kernel stay. */
    method Restart()
      requires Valid()
      modifies this`up, this`emptied, engine
      ensures Valid() && State() == Idle(old(State()))
    {
      engine.Down();
      up := "";
      emptied := router.TableEmpty();
    }

    /** What a restart of the daemon brings back: the rules at once, and the
        node that was chosen, to be tried in the background. */
    method Restore() returns (ok: bool, bringBack: Option<string>)
      requires Valid()
      modifies outside, router.v4, router.v6
      ensures Valid() && StaysArmed()
      ensures ok && routed ==> router.Armed()
      ensures bringBack.Some? ==> bringBack.value == stored.chosen != ""
      ensures outside.faults == old(outside.faults) && stored.chosen != "" ==> bringBack == Some(stored.chosen)
      ensures outside.faults == old(outside.faults) && router.Calm() && old(Routable()) ==> ok
    {
      hide SafeSince, Sound, TunnelRouter.Few, Safe, Settled, Owned, Kernel.Valid, AllArmed, TunnelRouter.Armed;
      ok, bringBack := true, None;
      router.ArmedSinceNow();
      if routed {
        ok := router.Ensure();
        if old(router.Armed()) {
          router.SafeStaysArmed();
        }
      }
      var loaded := outside.Try();
      if !loaded {
        return false, None;
      }
      if stored.chosen != "" {
        bringBack := Some(stored.chosen);
      }
    }
  }

  lemma NodeIsSound(d: Document, at: nat)
    requires ValidDocument(d) && at < |d.nodes|
    ensures d.nodes[at].id != "" && TunnelPrefixes.Parsed(d.nodes[at].allowed)
    ensures ValidDocument(d.(chosen := d.nodes[at].id))
  {
  }

  lemma IdsWithout(nodes: seq<Node>, at: nat)
    requires at < |nodes| && ValidDocument(Document(nodes, ""))
    ensures Ids(nodes[..at] + nodes[at+1..]) == Ids(nodes) - {nodes[at].id}
    ensures ValidDocument(Document(nodes[..at] + nodes[at+1..], ""))
  {
    var rest := nodes[..at] + nodes[at+1..];
    forall x ensures x in Ids(rest) <==> x in Ids(nodes) && x != nodes[at].id {
      if x in Ids(nodes) && x != nodes[at].id {
        var i :| 0 <= i < |nodes| && nodes[i].id == x;
        assert rest[if i < at then i else i - 1] == nodes[i];
      }
    }
  }

  /** Where a node is in the list, or -1. */
  function Find(nodes: seq<Node>, id: string): (r: int)
    ensures -1 <= r < |nodes|
    ensures r >= 0 ==> nodes[r].id == id
    ensures r == -1 <==> id !in Ids(nodes)
  {
    if nodes == [] then -1
    else
      var n := |nodes| - 1;
      assert Ids(nodes) == Ids(nodes[..n]) + {nodes[n].id};
      var r := Find(nodes[..n], id);
      if r >= 0 then r else if nodes[n].id == id then n else -1
  }
}
