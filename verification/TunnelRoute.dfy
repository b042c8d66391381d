/** The rules that decide who uses the tunnel, and their replacement in a
    running kernel (internal/adapters/openwrt/tunnel_route.go). */
module TunnelRoute {
  import opened Prefixes
  import opened KernelRouting

  const TUNNEL_SELECTOR: Selector := Fwmark(TUNNEL_MARK, TUNNEL_MARK)
  const BYPASS_SELECTOR: Selector := Fwmark(BYPASS_MARK, BYPASS_MARK)

  /** The temporary refusal of marked traffic while the rules are replaced. */
  const HOLD_RULE := Rule(HOLD, TUNNEL_SELECTOR, Lookup(REFUSE, -1))

  const BYPASS_RULE := Rule(BYPASS, BYPASS_SELECTOR, Lookup(MAIN, -1))
  const MARKED_RULE := Rule(MARKED, TUNNEL_SELECTOR, Lookup(TUNNEL, -1))
  const REFUSE_RULE := Rule(REFUSED, TUNNEL_SELECTOR, Lookup(REFUSE, -1))
  const LOCAL_RULE := Rule(LOCAL, Any, Lookup(MAIN, 0))
  const NETS_RULE := Rule(NETS, Any, Lookup(TUNNEL, 0))

  function Want(): seq<Rule> {
    [BYPASS_RULE, MARKED_RULE, REFUSE_RULE, LOCAL_RULE, NETS_RULE]
  }

  function DefaultRefusal(f: Family): Route { Route(Everything(f), Unreachable) }

  function Without(rules: seq<Rule>, prio: nat): seq<Rule> {
    if rules == [] then []
    else if rules[0].prio == prio then Without(rules[1..], prio)
    else [rules[0]] + Without(rules[1..], prio)
  }

  function Only(rules: seq<Rule>, prio: nat): seq<Rule> {
    if rules == [] then []
    else if rules[0].prio == prio then [rules[0]] + Only(rules[1..], prio)
    else Only(rules[1..], prio)
  }

  // ---- What a state of the panel's rules is worth ----

  /** What `inPlace` verifies: the wanted rules and no others on their
      priorities, and the refusing route. */
  predicate InPlace(f: Family, v: View) {
    Without(v.rules, HOLD) == Want() && DefaultRefusal(f) in v.refuse
  }

  predicate Held(f: Family, v: View) {
    HOLD_RULE in v.rules && DefaultRefusal(f) in v.refuse
  }

  predicate Guarded(f: Family, v: View) {
    InPlace(f, v) || Held(f, v)
  }

  /** Only the panel writes its two tables: the refusing one refuses, and the
      tunnel's leads to the tunnel's own devices. */
  predicate Owned(v: View, devices: set<string>) {
    && (forall r :: r in v.refuse ==> r.hop.Unreachable?)
    && (forall r :: r in v.tunnel ==> r.hop.Dev? && r.hop.name in devices)
  }

  /** Nothing but the panel's own rules on the panel's priorities. */
  predicate Clean(v: View) {
    forall r :: r in v.rules ==> r in Want() || r == HOLD_RULE
  }

  predicate Sound(f: Family, v: View) {
    Guarded(f, v) && Clean(v)
  }

  /** The state still has every rule it had on entry, plus at most holds, and
      no route into the tunnel that was not there. */
  predicate KeepsEntry(v0: View, v: View) {
    && Without(v.rules, HOLD) == Without(v0.rules, HOLD)
    && (forall r :: r in v0.rules ==> r in v.rules)
    && (forall r :: r in v.rules && r !in v0.rules ==> r == HOLD_RULE)
    && (forall r :: r in v.tunnel ==> r in v0.tunnel)
  }

  /** The safety of one state reached from the entry state `v0`. */
  predicate Safe(f: Family, v0: View, v: View, devices: set<string>) {
    && Owned(v, devices)
    && (Guarded(f, v) || KeepsEntry(v0, v))
    && (Sound(f, v0) ==> Sound(f, v))
  }

  /** A hold goes only from a state in which the permanent set is verified. */
  predicate HoldLeaves(f: Family, a: View, b: View) {
    |Only(b.rules, HOLD)| < |Only(a.rules, HOLD)| ==> InPlace(f, a)
  }

  ghost predicate SafeSince(f: Family, v0: View, views: seq<View>, from: nat, devices: set<string>)
    requires from <= |views|
  {
    && (forall i :: from <= i < |views| ==> Safe(f, v0, views[i], devices))
    && (forall i :: 0 < i && from <= i < |views| ==> HoldLeaves(f, views[i-1], views[i]))
  }

  // ---- Rule lists ----

  lemma {:induction false} WithoutHas(rules: seq<Rule>, prio: nat, r: Rule)
    ensures r in Without(rules, prio) <==> r in rules && r.prio != prio
  {
    if rules != [] { WithoutHas(rules[1..], prio, r); }
  }

  lemma {:induction false} OnlyHas(rules: seq<Rule>, prio: nat, r: Rule)
    ensures r in Only(rules, prio) <==> r in rules && r.prio == prio
  {
    if rules != [] { OnlyHas(rules[1..], prio, r); }
  }

  lemma {:induction false} OnlyOfWithout(rules: seq<Rule>, prio: nat, other: nat)
    requires prio != other
    ensures Only(Without(rules, prio), other) == Only(rules, other)
  {
    if rules != [] {
      OnlyOfWithout(rules[1..], prio, other);
      if rules[0].prio != prio {
        assert Without(rules, prio)[1..] == Without(rules[1..], prio);
      }
    }
  }

  lemma {:induction false} WithoutRemove(rules: seq<Rule>, prio: nat)
    ensures Without(Remove(rules, prio), prio) == Without(rules, prio)
    ensures |Only(Remove(rules, prio), prio)| <= |Only(rules, prio)|
  {
    if rules != [] && rules[0].prio != prio {
      WithoutRemove(rules[1..], prio);
      assert Remove(rules, prio)[1..] == Remove(rules[1..], prio);
    }
  }

  lemma {:induction false} WithoutInsertSame(rules: seq<Rule>, r: Rule)
    ensures Without(Insert(rules, r), r.prio) == Without(rules, r.prio)
    ensures |Only(Insert(rules, r), r.prio)| > |Only(rules, r.prio)|
  {
    if rules != [] && r.prio >= rules[0].prio {
      WithoutInsertSame(rules[1..], r);
      assert Insert(rules, r)[1..] == Insert(rules[1..], r);
    } else {
      assert Insert(rules, r)[1..] == rules;
    }
  }

  lemma {:induction false} OnlyInsertOther(rules: seq<Rule>, r: Rule, prio: nat)
    requires r.prio != prio
    ensures Only(Insert(rules, r), prio) == Only(rules, prio)
  {
    if rules != [] && r.prio >= rules[0].prio {
      OnlyInsertOther(rules[1..], r, prio);
      assert Insert(rules, r)[1..] == Insert(rules[1..], r);
    } else {
      assert Insert(rules, r)[1..] == rules;
    }
  }

  /** `inPlace` filters `ip rule show` to the wanted priorities; among the
      panel's rules that is everything but the hold. */
  function OnWanted(rules: seq<Rule>): seq<Rule> {
    if rules == [] then []
    else if Wanted(rules[0].prio) then [rules[0]] + OnWanted(rules[1..])
    else OnWanted(rules[1..])
  }

  lemma {:induction false} OnWantedIsMine(rules: seq<Rule>)
    ensures OnWanted(rules) == Without(Mine(rules), HOLD)
  {
    if rules != [] {
      OnWantedIsMine(rules[1..]);
      if Ours(rules[0].prio) {
        assert Mine(rules)[1..] == Mine(rules[1..]);
      }
    }
  }

  lemma {:induction false} OnlyMine(rules: seq<Rule>, prio: nat)
    requires Ours(prio)
    ensures Only(Mine(rules), prio) == Only(rules, prio)
  {
    if rules != [] {
      OnlyMine(rules[1..], prio);
      if Ours(rules[0].prio) {
        assert Mine(rules)[1..] == Mine(rules[1..]);
      }
    }
  }

  /** Deleting on a priority takes one rule of it, if there is one. */
  lemma {:induction false} OneFewer(rules: seq<Rule>, prio: nat)
    ensures HasPrio(rules, prio) <==> Only(rules, prio) != []
    ensures HasPrio(rules, prio) ==> |Only(Remove(rules, prio), prio)| == |Only(rules, prio)| - 1
  {
    if rules != [] {
      OneFewer(rules[1..], prio);
      if rules[0].prio != prio {
        TailHasPrio(rules, prio);
        assert Remove(rules, prio)[1..] == Remove(rules[1..], prio);
      }
    }
  }

  lemma TailHasPrio(rules: seq<Rule>, prio: nat)
    requires rules != [] && rules[0].prio != prio
    ensures HasPrio(rules, prio) <==> HasPrio(rules[1..], prio)
  {
    if HasPrio(rules[1..], prio) {
      var i :| 0 <= i < |rules[1..]| && rules[1..][i].prio == prio;
      assert rules[i + 1].prio == prio;
    }
  }

  lemma {:induction false} WithoutInsertOther(rules: seq<Rule>, r: Rule, prio: nat)
    requires Sorted(rules) && r.prio != prio
    ensures Without(Insert(rules, r), prio) == Insert(Without(rules, prio), r)
  {
    if rules == [] || r.prio < rules[0].prio {
      assert ([r] + rules)[1..] == rules;
      BeforeAll(rules, r, prio);
    } else {
      SortedTail(rules);
      WithoutInsertOther(rules[1..], r, prio);
      assert Insert(rules, r)[1..] == Insert(rules[1..], r);
      if rules[0].prio != prio {
        assert Without(rules, prio)[1..] == Without(rules[1..], prio);
      }
    }
  }

  lemma {:induction false} BeforeAll(rules: seq<Rule>, r: Rule, prio: nat)
    requires Sorted(rules) && (rules != [] ==> r.prio < rules[0].prio)
    ensures Insert(Without(rules, prio), r) == [r] + Without(rules, prio)
  {
    if Without(rules, prio) != [] {
      WithoutHas(rules, prio, Without(rules, prio)[0]);
    }
  }

  /** Added in their order, the wanted rules end up in it. */
  lemma {:induction false} InsertLast(rules: seq<Rule>, r: Rule)
    requires forall x :: x in rules ==> x.prio <= r.prio
    ensures Insert(rules, r) == rules + [r]
  {
    if rules != [] {
      InsertLast(rules[1..], r);
    }
  }

  lemma WantInOrder(n: nat)
    requires n < |Want()|
    ensures Insert(Want()[..n], Want()[n]) == Want()[..n + 1]
  {
    forall x | x in Want()[..n] ensures x.prio <= Want()[n].prio {
      var k :| 0 <= k < n && Want()[k] == x;
    }
    InsertLast(Want()[..n], Want()[n]);
    assert Want()[..n + 1] == Want()[..n] + [Want()[n]];
  }

  lemma {:induction false} WithoutEach(rules: seq<Rule>)
    requires forall r :: r in rules ==> Ours(r.prio)
    requires forall w :: w in Want() ==> Only(rules, w.prio) == []
    ensures Without(rules, HOLD) == []
  {
    if Without(rules, HOLD) != [] {
      var r := Without(rules, HOLD)[0];
      WithoutHas(rules, HOLD, r);
      OnPriority(r);
      OnlyHas(rules, r.prio, r);
    }
  }

  lemma OnPriority(r: Rule)
    requires Wanted(r.prio)
    ensures exists w :: w in Want() && w.prio == r.prio
  {
    var k := if r.prio == BYPASS then 0 else if r.prio == MARKED then 1 else if r.prio == REFUSED then 2 else if r.prio == LOCAL then 3 else 4;
    assert Want()[k] in Want();
  }

  /** Few enough rules on each of the panel's priorities for one round of
      deletions, eight a priority, with room for a hold. */
  predicate Few(v: View) {
    FewWanted(v) && |Only(v.rules, HOLD)| <= 7
  }

  predicate FewWanted(v: View) {
    forall w :: w in Want() ==> |Only(v.rules, w.prio)| <= 8
  }

  // ---- Reading ----

  method InPlaceNow(k: Kernel) returns (yes: bool)
    requires k.Valid()
    modifies k
    ensures k.Valid() && k.view == old(k.view) && Extends(old(k.views), k.views)
    ensures forall i :: |old(k.views)| <= i < |k.views| ==> k.views[i] == old(k.view)
    ensures yes ==> InPlace(k.family, k.view)
    ensures k.faults >= old(k.faults) && (k.faults == old(k.faults) ==> (yes <==> InPlace(k.family, k.view)))
  {
    var ok, rules := k.Show();
    if !ok {
      return false;
    }
    var have: seq<Rule> := [];
    for i := 0 to |rules|
      invariant have + OnWanted(rules[i..]) == OnWanted(rules)
    {
      assert rules[i..][0] == rules[i] && rules[i..][1..] == rules[i+1..];
      if Wanted(rules[i].prio) {
        have := have + [rules[i]];
      }
    }
    assert have == OnWanted(rules);
    OnWantedIsMine(rules);
    if have != Want() {
      return false;
    }
    var routes;
    ok, routes := k.ShowTable(REFUSE);
    return ok && DefaultRefusal(k.family) in routes;
  }

  /** The hold priority has exactly one rule, the hold. */
  method HasHold(k: Kernel) returns (yes: bool)
    requires k.Valid()
    modifies k
    ensures k.Valid() && k.view == old(k.view) && Extends(old(k.views), k.views)
    ensures forall i :: |old(k.views)| <= i < |k.views| ==> k.views[i] == old(k.view)
    ensures yes ==> Only(k.view.rules, HOLD) == [HOLD_RULE] && HOLD_RULE in k.view.rules
    ensures k.faults >= old(k.faults) && (k.faults == old(k.faults) ==> (yes <==> Only(k.view.rules, HOLD) == [HOLD_RULE]))
  {
    var ok, rules := k.Show();
    if !ok {
      return false;
    }
    var have: seq<Rule> := [];
    for i := 0 to |rules|
      invariant have + Only(rules[i..], HOLD) == Only(rules, HOLD)
    {
      assert rules[i..][0] == rules[i] && rules[i..][1..] == rules[i+1..];
      if rules[i].prio == HOLD {
        have := have + [rules[i]];
      }
    }
    assert have == Only(rules, HOLD);
    yes := |have| == 1 && have[0] == HOLD_RULE;
    OnlyMine(rules, HOLD);
    OnlyHas(k.view.rules, HOLD, HOLD_RULE);
  }

  // ---- Deleting ----

  ghost predicate Shrunk(v0: View, v: View, prio: nat) {
    && Without(v.rules, prio) == Without(v0.rules, prio)
    && v.tunnel == v0.tunnel && v.refuse == v0.refuse
    && (forall r :: r in v.rules ==> r in v0.rules)
  }

  lemma NothingShrunk(v: View, prio: nat)
    ensures Shrunk(v, v, prio)
  {
  }

  /** One deletion: the priority has one rule fewer, if it had any. */
  lemma DeletionShrinks(v0: View, v: View, prio: nat)
    requires Shrunk(v0, v, prio)
    ensures var w := Effect(DelRule(prio), v);
      Shrunk(v0, w, prio)
      && (Possible(DelRule(prio), v) <==> Only(v.rules, prio) != [])
      && (Possible(DelRule(prio), v) ==> |Only(w.rules, prio)| == |Only(v.rules, prio)| - 1)
  {
    WithoutRemove(v.rules, prio);
    OneFewer(v.rules, prio);
    forall r | r in Remove(v.rules, prio) ensures r in v.rules {
      RemoveHas(v.rules, prio, r);
    }
  }

  /** Removes every rule on a priority, eight at most, stopping at a refusal. */
  method DeleteAll(k: Kernel, prio: nat)
    requires k.Valid() && Ours(prio)
    modifies k
    ensures k.Valid() && Extends(old(k.views), k.views)
    ensures Shrunk(old(k.view), k.view, prio)
    ensures forall i :: |old(k.views)| <= i < |k.views| ==> Shrunk(old(k.view), k.views[i], prio)
    ensures |k.views| <= |old(k.views)| + 16 // two states a command
    ensures k.faults >= old(k.faults)
    ensures k.faults == old(k.faults) && |Only(old(k.view).rules, prio)| <= 8 ==> Only(k.view.rules, prio) == []
  {
    hide Shrunk, Only, Effect, Possible, Kernel.Valid;
    ghost var v0 := k.view;
    NothingShrunk(v0, prio);
    for n := 0 to 8
      invariant k.Valid() && Extends(old(k.views), k.views)
      invariant Shrunk(v0, k.view, prio)
      invariant forall i :: |old(k.views)| <= i < |k.views| ==> Shrunk(v0, k.views[i], prio)
      invariant |k.views| == |old(k.views)| + 2 * n
      invariant k.faults >= old(k.faults)
      invariant k.faults == old(k.faults) ==> |Only(k.view.rules, prio)| == |Only(v0.rules, prio)| - n
    {
      DeletionShrinks(v0, k.view, prio);
      var ok := k.Run(DelRule(prio));
      if !ok {
        return;
      }
    }
  }

  /** Deleting on a wanted priority leaves the holds, and with them the guard. */
  lemma ShrunkKeepsHold(f: Family, v0: View, v: View, prio: nat)
    requires Shrunk(v0, v, prio) && prio != HOLD
    ensures Only(v.rules, HOLD) == Only(v0.rules, HOLD)
    ensures Held(f, v0) ==> Held(f, v)
    ensures Clean(v0) ==> Clean(v)
  {
    OnlyOfWithout(v0.rules, prio, HOLD);
    OnlyOfWithout(v.rules, prio, HOLD);
    OnlyHas(v0.rules, HOLD, HOLD_RULE);
    OnlyHas(v.rules, HOLD, HOLD_RULE);
  }

  /** Takes the hold out and checks it is gone; only under the verified set. */
  method Release(k: Kernel) returns (ok: bool)
    requires k.Valid() && InPlace(k.family, k.view)
    modifies k
    ensures k.Valid() && Extends(old(k.views), k.views)
    ensures Shrunk(old(k.view), k.view, HOLD) && InPlace(k.family, k.view)
    ensures forall i :: |old(k.views)| <= i < |k.views| ==> Shrunk(old(k.view), k.views[i], HOLD)
    ensures ok ==> Only(k.view.rules, HOLD) == []
    ensures k.faults >= old(k.faults)
    ensures k.faults == old(k.faults) && |Only(old(k.view).rules, HOLD)| <= 8 ==> ok
  {
    var shown, rules := k.Show();
    OnlyMine(rules, HOLD);
    if !shown {
      return false;
    }
    if Only(rules, HOLD) == [] {
      return true;
    }
    DeleteAll(k, HOLD);
    shown, rules := k.Show();
    OnlyMine(rules, HOLD);
    return shown && Only(rules, HOLD) == [];
  }

  // ---- Replacing the rules under the hold ----

  /** The invariant of the rebuild from the moment the hold is in. */
  ghost predicate Covered(f: Family, v0: View, v: View, devices: set<string>) {
    Held(f, v) && Owned(v, devices) && v.tunnel == v0.tunnel && (Clean(v0) ==> Clean(v))
  }

  lemma CoveredIsSafe(f: Family, v0: View, v: View, devices: set<string>)
    requires Covered(f, v0, v, devices)
    ensures Safe(f, v0, v, devices)
  {
  }

  /** Step 1: the refusing route. Nothing is lost by it. */
  lemma RefusalIsSafe(f: Family, v0: View, devices: set<string>)
    requires Owned(v0, devices)
    ensures var v := Effect(ReplaceRoute(REFUSE, DefaultRefusal(f)), v0);
      Safe(f, v0, v, devices) && DefaultRefusal(f) in v.refuse && HoldLeaves(f, v0, v)
      && v.rules == v0.rules && v.tunnel == v0.tunnel
  {
    forall x
      ensures x in Replace(v0.refuse, DefaultRefusal(f)) ==> x == DefaultRefusal(f) || x in v0.refuse
    {
      ReplaceHas(v0.refuse, DefaultRefusal(f), x);
    }
    ReplaceHas(v0.refuse, DefaultRefusal(f), DefaultRefusal(f));
  }

  /** Step 2: the hold. The rules of the entry state are still all there. */
  lemma HoldIsSafe(f: Family, v0: View, v: View, devices: set<string>)
    requires Safe(f, v0, v, devices) && DefaultRefusal(f) in v.refuse
    requires v.rules == v0.rules && v.tunnel == v0.tunnel
    ensures var w := Effect(AddRule(HOLD_RULE), v);
      Covered(f, v0, w, devices) && KeepsEntry(v0, w) && HoldLeaves(f, v, w)
  {
    WithoutInsertSame(v.rules, HOLD_RULE);
    forall r ensures r in Insert(v.rules, HOLD_RULE) <==> r == HOLD_RULE || r in v.rules {
      InsertHas(v.rules, HOLD_RULE, r);
    }
  }

  /** Safety composes over consecutive stretches of the record. */
  lemma Continue(f: Family, v0: View, past: seq<View>, now: seq<View>, from: nat, devices: set<string>)
    requires from <= |past| && Extends(past, now)
    requires SafeSince(f, v0, past, from, devices) && SafeSince(f, v0, now, |past|, devices)
    ensures SafeSince(f, v0, now, from, devices)
  {
    assert forall i :: 0 <= i < |past| ==> now[..|past|][i] == now[i];
  }

  lemma NothingYet(f: Family, v0: View, views: seq<View>, devices: set<string>)
    ensures SafeSince(f, v0, views, |views|, devices)
  {
  }

  /** A stretch that only reads. */
  lemma ReadingIsSafe(f: Family, v0: View, past: seq<View>, now: seq<View>, devices: set<string>)
    requires 0 < |past| && Extends(past, now) && Safe(f, v0, past[|past|-1], devices)
    requires forall i :: |past| <= i < |now| ==> now[i] == past[|past|-1]
    ensures SafeSince(f, v0, now, |past|, devices)
  {
    assert now[..|past|][|past|-1] == now[|past|-1];
  }

  /** One command. */
  lemma CommandIsSafe(f: Family, v0: View, past: seq<View>, now: seq<View>, devices: set<string>)
    requires 0 < |past| && |now| == |past| + 2 && now == past + [past[|past|-1], now[|past|+1]]
    requires Safe(f, v0, past[|past|-1], devices) && Safe(f, v0, now[|past|+1], devices)
    requires HoldLeaves(f, past[|past|-1], now[|past|+1])
    ensures SafeSince(f, v0, now, |past|, devices)
  {
  }

  /** Deleting on a wanted priority, under the hold. */
  lemma DeletingIsSafe(f: Family, v0: View, past: seq<View>, now: seq<View>, prio: nat, devices: set<string>)
    requires 0 < |past| <= |now| && Extends(past, now) && prio != HOLD
    requires Covered(f, v0, past[|past|-1], devices)
    requires forall i :: |past| <= i < |now| ==> Shrunk(past[|past|-1], now[i], prio)
    ensures SafeSince(f, v0, now, |past|, devices) && Covered(f, v0, now[|now|-1], devices)
    ensures now[|now|-1].tunnel == past[|past|-1].tunnel
  {
    var v := past[|past|-1];
    assert now[..|past|][|past|-1] == now[|past|-1];
    forall i | |past| - 1 <= i < |now|
      ensures Covered(f, v0, now[i], devices) && Only(now[i].rules, HOLD) == Only(v.rules, HOLD)
    {
      if i >= |past| {
        ShrunkKeepsHold(f, v, now[i], prio);
      }
    }
  }

  /** Deleting the hold itself, under the verified set. */
  lemma ReleasingIsSafe(f: Family, v0: View, past: seq<View>, now: seq<View>, devices: set<string>)
    requires 0 < |past| <= |now| && Extends(past, now)
    requires Safe(f, v0, past[|past|-1], devices) && InPlace(f, past[|past|-1])
    requires forall i :: |past| <= i < |now| ==> Shrunk(past[|past|-1], now[i], HOLD)
    ensures SafeSince(f, v0, now, |past|, devices)
  {
    assert now[..|past|][|past|-1] == now[|past|-1];
  }

  /** No rule of the entry state is missing in any state since. */
  ghost predicate KeepsRules(v0: View, views: seq<View>, from: nat) {
    forall i :: from <= i < |views| ==> forall r :: r in v0.rules ==> r in views[i].rules
  }

  /** Step 1: the refusing route. */
  method PlaceRefusal(k: Kernel, ghost devices: set<string>) returns (ok: bool)
    requires k.Valid() && Owned(k.view, devices)
    modifies k
    ensures k.Valid() && Extends(old(k.views), k.views)
    ensures SafeSince(k.family, old(k.view), k.views, |old(k.views)|, devices)
    ensures Safe(k.family, old(k.view), k.view, devices)
    ensures k.view.rules == old(k.view.rules) && k.view.tunnel == old(k.view.tunnel)
    ensures KeepsRules(old(k.view), k.views, |old(k.views)|)
    ensures k.faults >= old(k.faults) && (k.faults == old(k.faults) ==> ok)
    ensures ok ==> DefaultRefusal(k.family) in k.view.refuse
  {
    hide SafeSince, Safe, HoldLeaves, Owned, Effect;
    EntryIsSafe(k.family, k.view, devices);
    RefusalIsSafe(k.family, k.view, devices);
    ok := k.Run(ReplaceRoute(REFUSE, DefaultRefusal(k.family)));
    CommandIsSafe(k.family, old(k.view), old(k.views), k.views, devices);
  }

  /** Step 2: the hold. One left by an earlier attempt may be the only refusal
      there is, so it is kept rather than replaced. */
  method PlaceHold(k: Kernel, ghost v0: View, ghost devices: set<string>) returns (ok: bool)
    requires k.Valid() && Safe(k.family, v0, k.view, devices)
    requires DefaultRefusal(k.family) in k.view.refuse
    requires k.view.rules == v0.rules && k.view.tunnel == v0.tunnel
    modifies k
    ensures k.Valid() && Extends(old(k.views), k.views)
    ensures k.view.tunnel == old(k.view).tunnel
    ensures SafeSince(k.family, v0, k.views, |old(k.views)|, devices)
    ensures KeepsRules(old(k.view), k.views, |old(k.views)|)
    ensures k.faults >= old(k.faults) && (k.faults == old(k.faults) ==> ok)
    ensures k.view.rules == old(k.view.rules) || k.view.rules == Insert(old(k.view.rules), HOLD_RULE)
    ensures ok ==> Covered(k.family, v0, k.view, devices)
  {
    hide SafeSince, Covered, Safe, HoldLeaves, Effect, KeepsRules, Kernel.Valid, Only;
    k.Current();
    var held := HasHold(k);
    k.Current();
    ReadingKeepsRules(k.view, old(k.views), k.views);
    ReadingIsSafe(k.family, v0, old(k.views), k.views, devices);
    if held {
      HeldIsCovered(k.family, v0, k.view, devices);
      return true;
    }
    ghost var past := k.views;
    HoldIsSafe(k.family, v0, k.view, devices);
    CoveredIsSafe(k.family, v0, Effect(AddRule(HOLD_RULE), k.view), devices);
    AddingInserts(HOLD_RULE, k.view);
    ok := k.Run(AddRule(HOLD_RULE));
    HoldKeepsRules(old(k.view), past, k.views, |old(k.views)|);
    CommandIsSafe(k.family, v0, past, k.views, devices);
    Continue(k.family, v0, past, k.views, |old(k.views)|, devices);
  }

  lemma AddingInserts(r: Rule, v: View)
    ensures Effect(AddRule(r), v) == v.(rules := Insert(v.rules, r)) && Possible(AddRule(r), v)
  {
  }

  lemma ReadingKeepsRules(v: View, past: seq<View>, now: seq<View>)
    requires forall i :: |past| <= i < |now| ==> now[i] == v
    ensures KeepsRules(v, now, |past|)
  {
  }

  lemma HoldKeepsRules(v: View, past: seq<View>, now: seq<View>, from: nat)
    requires from <= |past| && |now| == |past| + 2 && now == past + [v, now[|past|+1]] && KeepsRules(v, past, from)
    requires now[|past|+1] == v || now[|past|+1] == Effect(AddRule(HOLD_RULE), v)
    ensures KeepsRules(v, now, from)
  {
    forall r | r in v.rules ensures r in Insert(v.rules, HOLD_RULE) {
      InsertHas(v.rules, HOLD_RULE, r);
    }
  }

  /** Steps 1 and 2. Without the hold nothing else is touched. */
  method RaiseHold(k: Kernel, ghost devices: set<string>) returns (ok: bool)
    requires k.Valid() && Owned(k.view, devices)
    modifies k
    ensures k.Valid() && Extends(old(k.views), k.views)
    ensures k.view.tunnel == old(k.view).tunnel
    ensures SafeSince(k.family, old(k.view), k.views, |old(k.views)|, devices)
    ensures KeepsRules(old(k.view), k.views, |old(k.views)|)
    ensures k.faults >= old(k.faults) && (k.faults == old(k.faults) ==> ok)
    ensures k.view.rules == old(k.view.rules) || k.view.rules == Insert(old(k.view.rules), HOLD_RULE)
    ensures ok ==> Covered(k.family, old(k.view), k.view, devices)
  {
    hide SafeSince, Covered, Safe, Owned;
    ghost var v0 := k.view;
    ok := PlaceRefusal(k, devices);
    if ok {
      ghost var past := k.views;
      ok := PlaceHold(k, v0, devices);
      Continue(k.family, v0, past, k.views, |old(k.views)|, devices);
    }
  }

  lemma EntryIsSafe(f: Family, v0: View, devices: set<string>)
    requires Owned(v0, devices)
    ensures Safe(f, v0, v0, devices) && HoldLeaves(f, v0, v0)
  {
  }

  lemma HeldIsCovered(f: Family, v0: View, v: View, devices: set<string>)
    requires Safe(f, v0, v, devices) && DefaultRefusal(f) in v.refuse
    requires HOLD_RULE in v.rules && v.rules == v0.rules && v.tunnel == v0.tunnel
    ensures Covered(f, v0, v, devices)
  {
  }

  /** Step 3: the old rules go, the hold stays. */
  method ClearWanted(k: Kernel, ghost v0: View, ghost devices: set<string>)
    requires k.Valid() && Covered(k.family, v0, k.view, devices)
    modifies k
    ensures k.Valid() && Extends(old(k.views), k.views)
    ensures k.view.tunnel == old(k.view).tunnel
    ensures SafeSince(k.family, v0, k.views, |old(k.views)|, devices)
    ensures Covered(k.family, v0, k.view, devices)
    ensures k.faults >= old(k.faults) && Only(k.view.rules, HOLD) == Only(old(k.view).rules, HOLD)
    ensures k.faults == old(k.faults) && FewWanted(old(k.view)) ==> Without(k.view.rules, HOLD) == []
  {
    hide SafeSince, Covered, Shrunk, HoldLeaves, Cleared, Untouched, Only, Without, FewWanted, Kernel.Valid;
    NothingYet(k.family, v0, k.views, devices);
    NothingCleared(k.view);
    k.Current();
    var want := Want();
    for n := 0 to |want|
      invariant k.Valid() && Extends(old(k.views), k.views)
      invariant Covered(k.family, v0, k.view, devices) && k.view.tunnel == old(k.view).tunnel
      invariant SafeSince(k.family, v0, k.views, |old(k.views)|, devices)
      invariant |k.views| > 0 && k.views[|k.views| - 1] == k.view
      invariant k.faults >= old(k.faults) && Untouched(old(k.view), k.view, n)
      invariant k.faults == old(k.faults) && FewWanted(old(k.view)) ==> Cleared(k.view, n)
    {
      ghost var past, v := k.views, k.view;
      DeleteAll(k, want[n].prio);
      k.Current();
      DeletingIsSafe(k.family, v0, past, k.views, want[n].prio, devices);
      Continue(k.family, v0, past, k.views, |old(k.views)|, devices);
      OneCleared(old(k.view), v, k.view, n);
    }
    InOrder(k);
    AllCleared(old(k.view), k.view);
  }

  lemma InOrder(k: Kernel)
    requires k.Valid()
    ensures Sorted(k.view.rules) && forall r :: r in k.view.rules ==> Ours(r.prio)
  {
    MineSorted(k.net.rules);
  }

  /** The first wanted priorities have no rules left. */
  predicate Cleared(v: View, n: nat) {
    forall j :: 0 <= j < n && j < |Want()| ==> Only(v.rules, Want()[j].prio) == []
  }

  /** The hold's priority and those not yet cleared are as they were. */
  predicate Untouched(v0: View, v: View, n: nat) {
    && Only(v.rules, HOLD) == Only(v0.rules, HOLD)
    && forall j :: n <= j < |Want()| ==> Only(v.rules, Want()[j].prio) == Only(v0.rules, Want()[j].prio)
  }

  lemma NothingCleared(v: View)
    ensures Untouched(v, v, 0) && Cleared(v, 0)
  {
  }

  lemma OneCleared(v0: View, v: View, w: View, n: nat)
    requires n < |Want()| && Untouched(v0, v, n) && Shrunk(v, w, Want()[n].prio)
    ensures Untouched(v0, w, n + 1)
    ensures FewWanted(v0) ==> |Only(v.rules, Want()[n].prio)| <= 8
    ensures Cleared(v, n) && Only(w.rules, Want()[n].prio) == [] ==> Cleared(w, n + 1)
  {
    hide Only, Without;
    OnlyOfWithout(v.rules, Want()[n].prio, HOLD);
    OnlyOfWithout(w.rules, Want()[n].prio, HOLD);
    assert Want()[n] in Want();
    forall j | 0 <= j < |Want()| && j != n
      ensures Only(w.rules, Want()[j].prio) == Only(v.rules, Want()[j].prio)
    {
      OnlyOfWithout(v.rules, Want()[n].prio, Want()[j].prio);
      OnlyOfWithout(w.rules, Want()[n].prio, Want()[j].prio);
    }
  }

  lemma AllCleared(v0: View, v: View)
    requires forall r :: r in v.rules ==> Ours(r.prio)
    requires Untouched(v0, v, |Want()|)
    ensures Only(v.rules, HOLD) == Only(v0.rules, HOLD)
    ensures Cleared(v, |Want()|) ==> Without(v.rules, HOLD) == []
  {
    hide Only, Without;
    if Cleared(v, |Want()|) {
      forall w | w in Want() ensures Only(v.rules, w.prio) == [] {
        var j :| 0 <= j < |Want()| && Want()[j] == w;
      }
      WithoutEach(v.rules);
    }
  }

  /** Step 4: the new rules come, the hold stays. */
  method AddWanted(k: Kernel, ghost v0: View, ghost devices: set<string>) returns (ok: bool)
    requires k.Valid() && Covered(k.family, v0, k.view, devices)
    modifies k
    ensures k.Valid() && Extends(old(k.views), k.views)
    ensures k.view.tunnel == old(k.view).tunnel
    ensures SafeSince(k.family, v0, k.views, |old(k.views)|, devices)
    ensures Covered(k.family, v0, k.view, devices)
    ensures k.faults >= old(k.faults) && Only(k.view.rules, HOLD) == Only(old(k.view).rules, HOLD)
    ensures k.faults == old(k.faults) && Without(old(k.view).rules, HOLD) == [] ==>
      ok && Without(k.view.rules, HOLD) == Want()
  {
    hide SafeSince, Covered, Safe, HoldLeaves, Insert, InPlace, Held, Only, Without, Effect, Sorted;
    NothingYet(k.family, v0, k.views, devices);
    ok := true;
    var want := Want();
    assert want[..0] == [];
    for n := 0 to |want|
      invariant k.faults >= old(k.faults) && Only(k.view.rules, HOLD) == Only(old(k.view).rules, HOLD)
      invariant k.faults == old(k.faults) && Without(old(k.view).rules, HOLD) == [] ==>
        ok && Without(k.view.rules, HOLD) == want[..n]
      invariant k.Valid() && Extends(old(k.views), k.views)
      invariant Covered(k.family, v0, k.view, devices) && k.view.tunnel == old(k.view).tunnel
      invariant SafeSince(k.family, v0, k.views, |old(k.views)|, devices)
    {
      ghost var past := k.views;
      AddIsCovered(k.family, v0, k.view, want[n], devices);
      InOrder(k);
      AddingInserts(want[n], k.view);
      OneAdded(k.view.rules, n);
      var added := k.Run(AddRule(want[n]));
      ok := ok && added;
      CoveredIsSafe(k.family, v0, past[|past|-1], devices);
      CoveredIsSafe(k.family, v0, k.view, devices);
      CommandIsSafe(k.family, v0, past, k.views, devices);
      Continue(k.family, v0, past, k.views, |old(k.views)|, devices);
    }
    assert want[..|want|] == want;
  }

  /** A wanted rule added leaves the holds, and comes after those added before. */
  lemma OneAdded(rules: seq<Rule>, n: nat)
    requires n < |Want()| && Sorted(rules)
    ensures var now := Insert(rules, Want()[n]);
      Only(now, HOLD) == Only(rules, HOLD)
      && (Without(rules, HOLD) == Want()[..n] ==> Without(now, HOLD) == Want()[..n + 1])
  {
    OnlyInsertOther(rules, Want()[n], HOLD);
    WithoutInsertOther(rules, Want()[n], HOLD);
    WantInOrder(n);
    hide Only, Without, Insert;
  }

  lemma AddIsCovered(f: Family, v0: View, v: View, r: Rule, devices: set<string>)
    requires Covered(f, v0, v, devices) && r in Want()
    ensures var w := Effect(AddRule(r), v);
      Covered(f, v0, w, devices) && HoldLeaves(f, v, v) && HoldLeaves(f, v, w)
  {
    OnlyInsertOther(v.rules, r, HOLD);
    forall x ensures x in Insert(v.rules, r) <==> x == r || x in v.rules {
      InsertHas(v.rules, r, x);
    }
  }

  /** Step 5: the set is verified, and only then the hold goes. */
  method Settle(k: Kernel, ghost v0: View, ghost devices: set<string>) returns (ok: bool)
    requires k.Valid() && Safe(k.family, v0, k.view, devices)
    modifies k
    ensures k.Valid() && Extends(old(k.views), k.views)
    ensures k.view.tunnel == old(k.view).tunnel
    ensures SafeSince(k.family, v0, k.views, |old(k.views)|, devices)
    ensures ok ==> InPlace(k.family, k.view) && Only(k.view.rules, HOLD) == []
    ensures k.faults >= old(k.faults)
    ensures k.faults == old(k.faults) && InPlace(k.family, old(k.view)) && |Only(old(k.view).rules, HOLD)| <= 8 ==> ok
  {
    hide SafeSince, Safe, HoldLeaves, InPlace, Only, Owned, Without, Kernel.Valid;
    ghost var past := k.views;
    k.Current();
    var verified := InPlaceNow(k);
    k.Current();
    ReadingIsSafe(k.family, v0, past, k.views, devices);
    if !verified {
      return false;
    }
    past := k.views;
    ok := Release(k);
    ReleasingIsSafe(k.family, v0, past, k.views, devices);
    Continue(k.family, v0, past, k.views, |old(k.views)|, devices);
  }

  /** Replaces the rules under a hold, which stays unless the new set verifies. */
  method Rebuild(k: Kernel, ghost devices: set<string>) returns (ok: bool)
    requires k.Valid() && Owned(k.view, devices)
    modifies k
    ensures k.Valid() && Extends(old(k.views), k.views)
    ensures k.view.tunnel == old(k.view).tunnel
    ensures SafeSince(k.family, old(k.view), k.views, |old(k.views)|, devices)
    ensures ok ==> InPlace(k.family, k.view) && Only(k.view.rules, HOLD) == []
    ensures k.faults >= old(k.faults) && (k.faults == old(k.faults) && Few(old(k.view)) ==> ok)
  {
    hide SafeSince, Covered, Safe, HoldLeaves, InPlace, Only, Owned, Held, Few, Insert;
    ghost var f, v0, from := k.family, k.view, |k.views|;
    ok := RaiseHold(k, devices);
    if !ok {
      return;
    }
    ghost var past, held := k.views, k.view;
    HoldLeavesFew(v0, held);
    ClearWanted(k, v0, devices);
    Continue(f, v0, past, k.views, from, devices);
    past := k.views;
    ok := AddWanted(k, v0, devices);
    Continue(f, v0, past, k.views, from, devices);
    past := k.views;
    CoveredIsSafe(f, v0, k.view, devices);
    AddedIsInPlace(f, v0, k.view, devices);
    var settled := Settle(k, v0, devices);
    Continue(f, v0, past, k.views, from, devices);
    ok := ok && settled;
  }

  /** With the hold in there are still few enough rules. */
  lemma HoldLeavesFew(v0: View, v: View)
    requires v.rules == v0.rules || v.rules == Insert(v0.rules, HOLD_RULE)
    ensures Few(v0) ==> |Only(v.rules, HOLD)| <= 8 && FewWanted(v)
  {
    OneMoreHold(v0.rules);
    forall w | w in Want() ensures Only(Insert(v0.rules, HOLD_RULE), w.prio) == Only(v0.rules, w.prio) {
      OnlyInsertOther(v0.rules, HOLD_RULE, w.prio);
    }
    hide Only, Insert;
  }

  lemma {:induction false} OneMoreHold(rules: seq<Rule>)
    ensures |Only(Insert(rules, HOLD_RULE), HOLD)| == |Only(rules, HOLD)| + 1
  {
    if rules != [] && HOLD >= rules[0].prio {
      OneMoreHold(rules[1..]);
      assert Insert(rules, HOLD_RULE)[1..] == Insert(rules[1..], HOLD_RULE);
    } else {
      assert Insert(rules, HOLD_RULE)[1..] == rules;
    }
  }

  /** The wanted rules under a hold are what is verified. */
  lemma AddedIsInPlace(f: Family, v0: View, v: View, devices: set<string>)
    requires Covered(f, v0, v, devices)
    ensures Without(v.rules, HOLD) == Want() ==> InPlace(f, v)
  {
  }

  lemma LastIsSafe(f: Family, v0: View, views: seq<View>, from: nat, devices: set<string>)
    requires 0 < from <= |views| && views[from-1] == v0 && Owned(v0, devices)
    requires SafeSince(f, v0, views, from, devices)
    ensures Safe(f, v0, views[|views|-1], devices)
  {
  }

  /** The verified set without a hold is nothing but the panel's own rules. */
  lemma SettledIsSound(f: Family, v: View)
    requires InPlace(f, v) && Only(v.rules, HOLD) == []
    ensures Sound(f, v) && HOLD_RULE !in v.rules
  {
    forall r | r in v.rules ensures r in Want() {
      WithoutHas(v.rules, HOLD, r);
      OnlyHas(v.rules, HOLD, r);
    }
  }

  /** What a settled family is: verified, no hold left. */
  ghost predicate Settled(f: Family, v: View) {
    InPlace(f, v) && Only(v.rules, HOLD) == []
  }

  /** The rules and the refusing table of one family, put in place. Rules that
      already are stay, and only a leftover hold goes. */
  method EnsureFamily(k: Kernel, ghost devices: set<string>) returns (ok: bool)
    requires k.Valid() && Owned(k.view, devices)
    modifies k
    ensures k.Valid() && Extends(old(k.views), k.views)
    ensures k.view.tunnel == old(k.view).tunnel
    ensures SafeSince(k.family, old(k.view), k.views, |old(k.views)|, devices)
    ensures Safe(k.family, old(k.view), k.view, devices)
    ensures ok ==> Settled(k.family, k.view)
    ensures k.faults >= old(k.faults) && (k.faults == old(k.faults) && Few(old(k.view)) ==> ok)
  {
    hide SafeSince, Safe, HoldLeaves, InPlace, Only, Owned, Without, Kernel.Valid;
    ghost var f, v0, from := k.family, k.view, |k.views|;
    EntryIsSafe(f, v0, devices);
    k.Current();
    var yes := InPlaceNow(k);
    k.Current();
    ReadingIsSafe(f, v0, old(k.views), k.views, devices);
    ghost var past := k.views;
    if yes {
      ok := Release(k);
      ReleasingIsSafe(f, v0, past, k.views, devices);
    } else {
      ok := Rebuild(k, devices);
    }
    Continue(f, v0, past, k.views, from, devices);
    k.Current();
    LastIsSafe(f, v0, k.views, from, devices);
  }
}
