/** Policy routing as the Linux kernel does it for one address family: a list
    of rules in priority order, each naming a table to search. The commands of
    `ip` that the daemon runs are methods; any of them may fail, with or without
    having taken effect, and other programs may act before each one. */
module KernelRouting {
  import opened Prefixes

  const MAIN: nat := 254
  const TUNNEL: nat := 147
  const REFUSE: nat := 148

  const HOLD: nat := 30089
  const BYPASS: nat := 30090
  const MARKED: nat := 30100
  const REFUSED: nat := 30101
  const LOCAL: nat := 30102
  const NETS: nat := 30103

  /** A packet's mark, as the set of the bits that are on in it: the mark
      0x40000000 is bit 30, and `mark & mask` is an intersection. */
  type Mark = set<nat>

  const TUNNEL_MARK: Mark := {30}
  const BYPASS_MARK: Mark := {29}

  /** The priorities the panel writes rules on. */
  predicate Ours(prio: nat) {
    prio == HOLD || Wanted(prio)
  }

  /** The priorities of the permanent set: all of the panel's but the hold. */
  predicate Wanted(prio: nat) {
    prio == BYPASS || prio == MARKED || prio == REFUSED || prio == LOCAL || prio == NETS
  }

  /** What a rule selects: everything, a mark under a mask, or a condition this
      model does not interpret (a source, an interface, a user). */
  datatype Selector = Any | Fwmark(value: Mark, mask: Mark) | Other(condition: nat)

  datatype Action =
    | Lookup(table: nat, suppress: int) // `suppress_prefixlength`; -1 when absent
    | Deny

  datatype Rule = Rule(prio: nat, selector: Selector, action: Action)

  datatype Hop = Dev(name: string) | Unreachable

  datatype Route = Route(prefix: Prefix, hop: Hop)

  /** A packet of the family: its mark, its destination, and which of the
      uninterpreted conditions hold of it. */
  datatype Packet = Packet(mark: Mark, dst: nat, conditions: set<nat>)

  datatype Net = Net(rules: seq<Rule>, tables: map<nat, seq<Route>>) {
    function Table(t: nat): seq<Route> {
      if t in tables then tables[t] else []
    }
  }

  datatype Decision = Via(table: nat, route: Route) | Refusal | Undecided

  predicate Sorted(rules: seq<Rule>) {
    forall i, j :: 0 <= i < j < |rules| ==> rules[i].prio <= rules[j].prio
  }

  predicate ValidRoutes(routes: seq<Route>) {
    forall i :: 0 <= i < |routes| ==> routes[i].prefix.Valid()
  }

  predicate ValidNet(n: Net) {
    Sorted(n.rules) && forall t :: t in n.tables ==> ValidRoutes(n.tables[t])
  }

  // ---- Lookup ----

  predicate Matches(s: Selector, p: Packet) {
    match s
    case Any => true
    case Fwmark(value, mask) => p.mark * mask == value
    case Other(c) => c in p.conditions
  }

  /** The longest match; the first in table order among equals. */
  ghost function Best(routes: seq<Route>, dst: nat): (r: int)
    requires ValidRoutes(routes)
    ensures -1 <= r < |routes|
    ensures r == -1 <==> forall i :: 0 <= i < |routes| ==> !routes[i].prefix.Contains(dst)
    ensures r >= 0 ==> routes[r].prefix.Contains(dst)
    ensures forall i :: 0 <= i < |routes| && routes[i].prefix.Contains(dst) ==>
      routes[i].prefix.bits <= routes[r].prefix.bits
  {
    if routes == [] then -1
    else
      var n := |routes| - 1;
      assert forall i :: 0 <= i < n ==> routes[..n][i] == routes[i];
      var k := Best(routes[..n], dst);
      if routes[n].prefix.Contains(dst) && (k == -1 || routes[k].prefix.bits < routes[n].prefix.bits) then n else k
  }

  /** What one rule makes of a packet: a route, a refusal, or nothing, and then
      the next rule is asked. A route no longer than the rule's
      `suppress_prefixlength` is discarded; an unreachable one is final. */
  ghost function Decides(n: Net, r: Rule, p: Packet): Decision
    requires ValidNet(n)
  {
    if !Matches(r.selector, p) then Undecided
    else match r.action
      case Deny => Refusal
      case Lookup(t, suppress) =>
        var k := Best(n.Table(t), p.dst);
        if k < 0 then Undecided
        else
          var route := n.Table(t)[k];
          if route.hop.Unreachable? then Refusal
          else if route.prefix.bits <= suppress then Undecided
          else Via(t, route)
  }

  ghost function DecideFrom(n: Net, i: nat, p: Packet): Decision
    requires ValidNet(n) && i <= |n.rules|
    decreases |n.rules| - i
  {
    if i == |n.rules| then Undecided
    else
      var d := Decides(n, n.rules[i], p);
      if d.Undecided? then DecideFrom(n, i + 1, p) else d
  }

  /** Where the kernel sends a packet. */
  ghost function Decide(n: Net, p: Packet): Decision
    requires ValidNet(n)
  {
    DecideFrom(n, 0, p)
  }

  /** The verdict is that of the first rule with an opinion. */
  lemma {:induction false} FirstDecider(n: Net, i: nat, p: Packet) returns (k: nat)
    requires ValidNet(n) && i <= |n.rules|
    ensures i <= k <= |n.rules|
    ensures forall j :: i <= j < k ==> Decides(n, n.rules[j], p).Undecided?
    ensures k < |n.rules| ==> !Decides(n, n.rules[k], p).Undecided?
    ensures DecideFrom(n, i, p) == if k < |n.rules| then Decides(n, n.rules[k], p) else Undecided
    decreases |n.rules| - i
  {
    if i == |n.rules| || !Decides(n, n.rules[i], p).Undecided? {
      k := i;
    } else {
      k := FirstDecider(n, i + 1, p);
    }
  }

  // ---- Changes ----

  /** A new rule goes after the rules of the same priority. */
  function Insert(rules: seq<Rule>, r: Rule): seq<Rule> {
    if rules == [] || r.prio < rules[0].prio then [r] + rules
    else [rules[0]] + Insert(rules[1..], r)
  }

  /** `ip rule del priority p` takes the first rule of the priority. */
  function Remove(rules: seq<Rule>, prio: nat): seq<Rule> {
    if rules == [] then []
    else if rules[0].prio == prio then rules[1..]
    else [rules[0]] + Remove(rules[1..], prio)
  }

  predicate HasPrio(rules: seq<Rule>, prio: nat) {
    exists i :: 0 <= i < |rules| && rules[i].prio == prio
  }

  /** `ip route replace`: takes the place of a route to the same network. */
  function Replace(routes: seq<Route>, route: Route): seq<Route> {
    if routes == [] then [route]
    else if routes[0].prefix == route.prefix then [route] + routes[1..]
    else [routes[0]] + Replace(routes[1..], route)
  }

  // ---- The panel's part of the state ----

  function Mine(rules: seq<Rule>): seq<Rule> {
    if rules == [] then []
    else if Ours(rules[0].prio) then [rules[0]] + Mine(rules[1..])
    else Mine(rules[1..])
  }

  /** The rules on the panel's priorities and its two tables: all the commands
      here read or write, and what no other program writes. */
  datatype View = View(rules: seq<Rule>, tunnel: seq<Route>, refuse: seq<Route>)

  function ViewOf(n: Net): View {
    View(Mine(n.rules), n.Table(TUNNEL), n.Table(REFUSE))
  }

  lemma {:induction false} MineHas(rules: seq<Rule>, r: Rule)
    ensures r in Mine(rules) <==> r in rules && Ours(r.prio)
  {
    if rules != [] {
      MineHas(rules[1..], r);
    }
  }

  lemma {:induction false} SortedTail(rules: seq<Rule>)
    requires Sorted(rules) && rules != []
    ensures Sorted(rules[1..]) && forall r :: r in rules ==> rules[0].prio <= r.prio
  {
  }

  lemma {:induction false} InsertHas(rules: seq<Rule>, r: Rule, x: Rule)
    ensures x in Insert(rules, r) <==> x == r || x in rules
  {
    if rules != [] && r.prio >= rules[0].prio {
      InsertHas(rules[1..], r, x);
    }
  }

  lemma {:induction false} InsertSorted(rules: seq<Rule>, r: Rule)
    requires Sorted(rules)
    ensures Sorted(Insert(rules, r))
  {
    if rules != [] && r.prio >= rules[0].prio {
      SortedTail(rules);
      InsertSorted(rules[1..], r);
      forall x | x in Insert(rules[1..], r) ensures rules[0].prio <= x.prio {
        InsertHas(rules[1..], r, x);
      }
    } else if rules != [] {
      SortedTail(rules);
    }
  }

  lemma {:induction false} MineFront(rules: seq<Rule>, r: Rule)
    requires Sorted(rules) && (rules != [] ==> r.prio < rules[0].prio)
    ensures Insert(Mine(rules), r) == [r] + Mine(rules)
  {
    if Mine(rules) != [] {
      MineHas(rules, Mine(rules)[0]);
    }
  }

  lemma {:induction false} MineInsert(rules: seq<Rule>, r: Rule)
    requires Sorted(rules) && Ours(r.prio)
    ensures Mine(Insert(rules, r)) == Insert(Mine(rules), r)
  {
    if rules == [] || r.prio < rules[0].prio {
      MineFront(rules, r);
      assert ([r] + rules)[1..] == rules;
    } else {
      SortedTail(rules);
      MineInsert(rules[1..], r);
      var whole := Insert(rules, r);
      assert whole[1..] == Insert(rules[1..], r);
      if Ours(rules[0].prio) {
        assert Mine(rules)[1..] == Mine(rules[1..]);
      }
    }
  }

  lemma {:induction false} RemoveHas(rules: seq<Rule>, prio: nat, x: Rule)
    ensures x in Remove(rules, prio) ==> x in rules
    ensures x in rules && x.prio != prio ==> x in Remove(rules, prio)
  {
    if rules != [] && rules[0].prio != prio {
      RemoveHas(rules[1..], prio, x);
    }
  }

  lemma {:induction false} RemoveSorted(rules: seq<Rule>, prio: nat)
    requires Sorted(rules)
    ensures Sorted(Remove(rules, prio))
  {
    if rules != [] {
      SortedTail(rules);
      RemoveSorted(rules[1..], prio);
      forall x | x in Remove(rules[1..], prio) ensures rules[0].prio <= x.prio {
        RemoveHas(rules[1..], prio, x);
      }
    }
  }

  lemma {:induction false} MineRemove(rules: seq<Rule>, prio: nat)
    requires Ours(prio)
    ensures Mine(Remove(rules, prio)) == Remove(Mine(rules), prio)
    ensures HasPrio(Mine(rules), prio) <==> HasPrio(rules, prio)
  {
    forall r ensures r in Mine(rules) <==> r in rules && Ours(r.prio) { MineHas(rules, r); }
    assert HasPrio(Mine(rules), prio) <==> exists r :: r in Mine(rules) && r.prio == prio;
    assert HasPrio(rules, prio) <==> exists r :: r in rules && r.prio == prio;
    if rules != [] {
      MineRemove(rules[1..], prio);
      if rules[0].prio != prio {
        var rest := Remove(rules, prio);
        assert rest[1..] == Remove(rules[1..], prio);
        if Ours(rules[0].prio) {
          assert Mine(rules)[1..] == Mine(rules[1..]);
        }
      }
    }
  }

  /** The panel's part of a kernel's rules is in order, and on its priorities. */
  lemma {:induction false} MineSorted(rules: seq<Rule>)
    requires Sorted(rules)
    ensures Sorted(Mine(rules)) && forall r :: r in Mine(rules) ==> Ours(r.prio)
  {
    if rules != [] {
      SortedTail(rules);
      MineSorted(rules[1..]);
      forall x | x in Mine(rules[1..]) ensures rules[0].prio <= x.prio {
        MineHas(rules[1..], x);
      }
    }
  }

  lemma {:induction false} ReplaceHas(routes: seq<Route>, route: Route, x: Route)
    ensures x in Replace(routes, route) ==> x == route || x in routes
    ensures x in routes && x.prefix != route.prefix ==> x in Replace(routes, route)
    ensures route in Replace(routes, route)
  {
    if routes != [] && routes[0].prefix != route.prefix {
      ReplaceHas(routes[1..], route, x);
    }
  }

  lemma {:induction false} ReplaceValid(routes: seq<Route>, route: Route)
    requires ValidRoutes(routes) && route.prefix.Valid()
    ensures ValidRoutes(Replace(routes, route))
  {
    forall x | x in Replace(routes, route) ensures x.prefix.Valid() {
      ReplaceHas(routes, route, x);
    }
  }

  // ---- Commands ----

  /** A command of the panel's: on its own priorities, on its own tables. */
  datatype Command =
    | AddRule(rule: Rule)
    | DelRule(prio: nat)
    | ReplaceRoute(table: nat, route: Route)

  predicate Allowed(c: Command) {
    match c
    case AddRule(r) => Ours(r.prio)
    case DelRule(prio) => Ours(prio)
    case ReplaceRoute(t, route) => route.prefix.Valid() && (t == TUNNEL || t == REFUSE)
  }

  /** Whether the kernel can carry the command out at all. */
  predicate Possible(c: Command, v: View) {
    c.DelRule? ==> HasPrio(v.rules, c.prio)
  }

  function Effect(c: Command, v: View): View {
    match c
    case AddRule(r) => v.(rules := Insert(v.rules, r))
    case DelRule(prio) => v.(rules := Remove(v.rules, prio))
    case ReplaceRoute(t, route) =>
      if t == TUNNEL then v.(tunnel := Replace(v.tunnel, route))
      else v.(refuse := Replace(v.refuse, route))
  }

  function Perform(c: Command, n: Net): Net {
    match c
    case AddRule(r) => n.(rules := Insert(n.rules, r))
    case DelRule(prio) => n.(rules := Remove(n.rules, prio))
    case ReplaceRoute(t, route) => n.(tables := n.tables[t := Replace(n.Table(t), route)])
  }

  /** A command acts on the panel's part of the kernel alone, whatever else is
      there: the other programs' rules and tables stay as they are. */
  lemma PerformIsEffect(c: Command, n: Net)
    requires ValidNet(n) && Allowed(c)
    ensures ValidNet(Perform(c, n))
    ensures ViewOf(Perform(c, n)) == Effect(c, ViewOf(n))
    ensures forall r :: r in n.rules && !Ours(r.prio) ==> r in Perform(c, n).rules
    ensures forall r :: r in Perform(c, n).rules && !Ours(r.prio) ==> r in n.rules
    ensures forall t :: t != TUNNEL && t != REFUSE ==> Perform(c, n).Table(t) == n.Table(t)
    ensures forall t :: t == 0 || t >= 253 ==> Perform(c, n).Table(t) == n.Table(t) // main, local, default, unspecified
    ensures forall r :: r in n.rules && (r.prio == 0 || r.prio >= 32766) ==> r in Perform(c, n).rules // those of every kernel
  {
    match c
    case AddRule(r) =>
      InsertSorted(n.rules, r);
      MineInsert(n.rules, r);
      forall x ensures x in Insert(n.rules, r) <==> x == r || x in n.rules { InsertHas(n.rules, r, x); }
    case DelRule(prio) =>
      RemoveSorted(n.rules, prio);
      MineRemove(n.rules, prio);
      forall x
        ensures x in Remove(n.rules, prio) ==> x in n.rules
        ensures x in n.rules && x.prio != prio ==> x in Remove(n.rules, prio)
      {
        RemoveHas(n.rules, prio, x);
      }
    case ReplaceRoute(t, route) =>
      ReplaceValid(n.Table(t), route);
  }

  // ---- The kernel ----

  /** `now` continues the record `past`. */
  ghost predicate Extends(past: seq<View>, now: seq<View>) {
    |past| <= |now| && forall i :: 0 <= i < |past| ==> now[i] == past[i]
  }

  class Kernel {
    const family: Family
    var net: Net
    /** Every state the kernel has been in, oldest first, and the panel's part
        of each. */
    ghost var trace: seq<Net>
    ghost var views: seq<View>
    ghost var view: View
    /** How many commands have failed of themselves: not for want of a rule to
        delete, but for a reason of the kernel's. */
    ghost var faults: nat

    ghost predicate Valid()
      reads this
    {
      && ValidNet(net) && view == ViewOf(net)
      && |views| == |trace| > 0 && trace[|trace| - 1] == net && views[|views| - 1] == view
      && (forall i :: 0 <= i < |trace| ==> ValidNet(trace[i]) && views[i] == ViewOf(trace[i]))
    }

    lemma Current()
      requires Valid()
      ensures |views| > 0 && views[|views| - 1] == view
    {
    }

    constructor (family: Family, net: Net)
      requires ValidNet(net)
      ensures Valid() && this.family == family && this.net == net && trace == [net] && faults == 0
    {
      this.family, this.net, trace, faults := family, net, [net], 0;
      view, views := ViewOf(net), [ViewOf(net)];
    }

    ghost method Record()
      requires ValidNet(net)
      requires |views| == |trace|
      requires forall i :: 0 <= i < |trace| ==> ValidNet(trace[i]) && views[i] == ViewOf(trace[i])
      modifies this`trace, this`views, this`view
      ensures Valid() && views == old(views) + [ViewOf(net)] && trace == old(trace) + [net]
    {
      view := ViewOf(net);
      trace, views := trace + [net], views + [view];
    }

    /** Another program changes rules on its own priorities or its own tables. */
    method Interfere()
      requires Valid()
      modifies this
      ensures Valid() && view == old(view) && views == old(views) + [view] && faults == old(faults)
    {
      var other: Net := *;
      if ValidNet(other) && ViewOf(net) == ViewOf(other) {
        net := other;
      }
      Record();
    }

    /** `ip rule add`, `ip rule del`, `ip route replace`. A failure may come
        after the change was made, as when the answer does not arrive in time. */
    method Run(c: Command) returns (ok: bool)
      requires Valid() && Allowed(c)
      modifies this
      ensures Valid() && views == old(views) + [old(view), view]
      ensures view == old(view) || (Possible(c, old(view)) && view == Effect(c, old(view)))
      ensures ok ==> Possible(c, old(view)) && view == Effect(c, old(view))
      ensures faults >= old(faults) && (faults == old(faults) ==> (ok <==> Possible(c, old(view))))
    {
      Interfere();
      var late: bool, works: bool := *, *;
      if c.DelRule? {
        MineRemove(net.rules, c.prio);
      }
      var possible := c.DelRule? ==> HasPrio(net.rules, c.prio);
      ok := works && possible;
      if !works {
        faults := faults + 1;
      }
      PerformIsEffect(c, net);
      if ok || (late && possible) {
        net := Perform(c, net);
      }
      Record();
    }

    /** `ip route flush table 147`: a failure leaves any part of the table. */
    method Flush() returns (ok: bool)
      requires Valid()
      modifies this
      ensures Valid() && views == old(views) + [old(view), view]
      ensures view == old(view).(tunnel := view.tunnel)
      ensures forall r :: r in view.tunnel ==> r in old(view).tunnel
      ensures ok ==> view.tunnel == []
      ensures faults >= old(faults) && (faults == old(faults) <==> ok)
    {
      Interfere();
      ok := *;
      var left: seq<Route> := *;
      if ok {
        left := [];
      } else {
        faults := faults + 1;
      }
      if forall i :: 0 <= i < |left| ==> left[i] in net.Table(TUNNEL) {
        net := net.(tables := net.tables[TUNNEL := left]);
      }
      Record();
    }

    /** `ip rule show` and `ip route show table …`: the state, or no answer. */
    method Show() returns (ok: bool, rules: seq<Rule>)
      requires Valid()
      modifies this
      ensures Valid() && view == old(view) && views == old(views) + [view]
      ensures ok ==> rules == net.rules
      ensures faults >= old(faults) && (faults == old(faults) <==> ok)
    {
      Interfere();
      ok, rules := *, net.rules;
      if !ok {
        faults := faults + 1;
      }
    }

    method ShowTable(t: nat) returns (ok: bool, routes: seq<Route>)
      requires Valid()
      modifies this
      ensures Valid() && view == old(view) && views == old(views) + [view]
      ensures ok ==> routes == net.Table(t)
      ensures faults >= old(faults) && (faults == old(faults) <==> ok)
    {
      Interfere();
      ok, routes := *, net.Table(t);
      if !ok {
        faults := faults + 1;
      }
    }
  }
}
