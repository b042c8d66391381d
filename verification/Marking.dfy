/** The chain that marks the local network's traffic for the tunnel
    (internal/routing/routing.go). */
module Marking {
  import opened Outcomes
  import opened Text
  import opened Prefixes
  import opened KernelRouting

  /** A rule of the owner's. A subnet that does not parse is `None`; every
      target but the tunnel counts as direct. */
  datatype RouteRule =
    | Subnet(network: Option<Prefix>, tunnel: bool)
    | Domain(name: string, tunnel: bool)
    | Unknown

  datatype RuleError = BadSubnet | EmptyDomain | UnknownKind | NoInterfaces | BadInterface

  /** One line of the rendered chain. */
  datatype Statement =
    | ReturnUnlessFrom(interfaces: seq<string>)
    | ReturnIfReply
    | ReturnIfTo(family: Family, networks: seq<Prefix>)
    | MarkIfTo(family: Family, networks: seq<Prefix>)

  /** A packet as the prerouting hook sees it. */
  datatype Arrival = Arrival(from: string, reply: bool, family: Family, packet: Packet)

  datatype Sets = Sets(tunnel4: seq<Prefix>, tunnel6: seq<Prefix>, direct4: seq<Prefix>, direct6: seq<Prefix>)

  predicate Parsed(rules: seq<RouteRule>) {
    forall r :: r in rules && r.Subnet? && r.network.Some? ==> r.network.value.Valid()
  }

  predicate AllValid(networks: seq<Prefix>) {
    forall p :: p in networks ==> p.Valid()
  }

  // ---- The chain, run ----

  predicate Within(networks: seq<Prefix>, f: Family, a: Arrival)
    requires AllValid(networks)
  {
    a.family == f && exists p :: p in networks && p.Contains(a.packet.dst)
  }

  predicate Runnable(chain: seq<Statement>) {
    forall s :: s in chain ==> (s.ReturnIfTo? || s.MarkIfTo? ==> AllValid(s.networks))
  }

  /** The mark a packet leaves the chain with. */
  function MarkAfter(chain: seq<Statement>, a: Arrival, mark: Mark): Mark
    requires Runnable(chain)
  {
    if chain == [] then mark
    else
      assert forall s :: s in chain[1..] ==> s in chain;
      match chain[0]
      case ReturnUnlessFrom(interfaces) =>
        if a.from !in interfaces then mark else MarkAfter(chain[1..], a, mark)
      case ReturnIfReply =>
        if a.reply then mark else MarkAfter(chain[1..], a, mark)
      case ReturnIfTo(f, networks) =>
        if Within(networks, f, a) then mark else MarkAfter(chain[1..], a, mark)
      case MarkIfTo(f, networks) =>
        MarkAfter(chain[1..], a, if Within(networks, f, a) then mark + TUNNEL_MARK else mark)
  }

  function Marked(chain: seq<Statement>, a: Arrival): Packet
    requires Runnable(chain)
  {
    a.packet.(mark := MarkAfter(chain, a, a.packet.mark))
  }

  // ---- What the rules ask for ----

  predicate Names(rules: seq<RouteRule>, tunnel: bool, a: Arrival)
    requires Parsed(rules)
  {
    exists r :: r in rules && r.Subnet? && r.tunnel == tunnel && r.network.Some?
      && r.network.value.family == a.family && r.network.value.Contains(a.packet.dst)
  }

  /** Traffic of the local network's own choosing, to a network some rule sends
      into the tunnel and no rule keeps direct. */
  predicate AskedFor(rules: seq<RouteRule>, ingress: seq<string>, a: Arrival)
    requires Parsed(rules)
  {
    a.from in ingress && !a.reply && Names(rules, true, a) && !Names(rules, false, a)
  }

  /** The packet as it should leave: one bit more when the rules ask for the
      tunnel, and whatever other bits it came with. */
  function Intended(rules: seq<RouteRule>, ingress: seq<string>, a: Arrival): Packet
    requires Parsed(rules)
  {
    if AskedFor(rules, ingress, a) then a.packet.(mark := a.packet.mark + TUNNEL_MARK) else a.packet
  }

  // ---- Rendering ----

  predicate WellFormed(r: RouteRule) {
    (r.Subnet? ==> r.network.Some?) && (r.Domain? ==> exists c :: c in r.name && !IsSpace(c)) && !r.Unknown?
  }

  /** What the four sets hold for a list of rules. */
  ghost predicate Classified(s: Sets, rules: seq<RouteRule>) {
    forall p: Prefix ::
      && (p in s.tunnel4 <==> Subnet(Some(p), true) in rules && p.family == V4)
      && (p in s.tunnel6 <==> Subnet(Some(p), true) in rules && p.family == V6)
      && (p in s.direct4 <==> Subnet(Some(p), false) in rules && p.family == V4)
      && (p in s.direct6 <==> Subnet(Some(p), false) in rules && p.family == V6)
  }

  method Classify(rules: seq<RouteRule>) returns (r: Result<Sets, RuleError>)
    ensures r.Ok? <==> forall x :: x in rules ==> WellFormed(x)
    ensures r.Ok? ==> Classified(r.value, rules)
  {
    var s := Sets([], [], [], []);
    for i := 0 to |rules|
      invariant forall x :: x in rules[..i] ==> WellFormed(x)
      invariant Classified(s, rules[..i])
    {
      assert rules[..i+1] == rules[..i] + [rules[i]];
      match rules[i] {
        case Subnet(network, tunnel) =>
          if network.None? {
            assert !WellFormed(rules[i]);
            return Err(BadSubnet);
          }
          var p := network.value;
          if p.family == V4 && tunnel {
            s := s.(tunnel4 := s.tunnel4 + [p]);
          } else if p.family == V4 {
            s := s.(direct4 := s.direct4 + [p]);
          } else if tunnel {
            s := s.(tunnel6 := s.tunnel6 + [p]);
          } else {
            s := s.(direct6 := s.direct6 + [p]);
          }
        case Domain(name, _) =>
          if forall c :: c in name ==> IsSpace(c) {
            assert !WellFormed(rules[i]);
            return Err(EmptyDomain);
          }
        case Unknown =>
          assert !WellFormed(rules[i]);
          return Err(UnknownKind);
      }
    }
    assert rules[..|rules|] == rules;
    r := Ok(s);
  }

  predicate GoodInterface(name: string) {
    0 < |name| <= 15 && forall c :: c in name ==> c !in "\"\\ \t\n;{}"
  }

  /** An interface's name fits the kernel's limit and ends no string, list or line of
      the chain's text; a name of letters, digits, dots and dashes does fit. */
  lemma NamesAreHarmless(name: string)
    ensures GoodInterface(name) ==>
      1 <= |name| <= 15 && '"' !in name && '\\' !in name && ' ' !in name && '\n' !in name && ';' !in name && '{' !in name && '}' !in name
    ensures 1 <= |name| <= 15 && (forall c :: c in name ==> IsPlain(c)) ==> GoodInterface(name)
  {
  }

  predicate IsPlain(c: char) {
    'a' <= c <= 'z' || 'A' <= c <= 'Z' || '0' <= c <= '9' || c == '.' || c == '-' || c == '_'
  }

  /** The whole chain: only traffic entering from the local network, replies
      left alone, direct networks before tunnel ones. */
  method Render(ingress: seq<string>, rules: seq<RouteRule>) returns (r: Result<seq<Statement>, RuleError>)
    requires Parsed(rules)
    ensures r.Ok? <==>
      (forall x :: x in rules ==> WellFormed(x)) && ingress != [] && (forall n :: n in ingress ==> GoodInterface(n))
    ensures r.Ok? ==> Runnable(r.value)
    ensures r.Ok? ==> forall a: Arrival :: Marked(r.value, a) == Intended(rules, ingress, a)
  {
    hide MarkAfter, Marked, Intended, Runnable, ValidSets, Parsed, Classified;
    var classified := Classify(rules);
    if classified.Err? {
      return Err(classified.error);
    }
    if ingress == [] {
      return Err(NoInterfaces);
    }
    if exists n :: n in ingress && !GoodInterface(n) {
      return Err(BadInterface);
    }
    var s := classified.value;
    SetsAreValid(s, rules);
    var chain := [ReturnUnlessFrom(ingress), ReturnIfReply];
    if |s.direct4| > 0 {
      chain := chain + [ReturnIfTo(V4, s.direct4)];
    }
    if |s.direct6| > 0 {
      chain := chain + [ReturnIfTo(V6, s.direct6)];
    }
    if |s.tunnel4| > 0 {
      chain := chain + [MarkIfTo(V4, s.tunnel4)];
    }
    if |s.tunnel6| > 0 {
      chain := chain + [MarkIfTo(V6, s.tunnel6)];
    }
    assert chain == [ReturnUnlessFrom(ingress), ReturnIfReply] + Direct(s) + IntoTunnel(s);
    ChainIsIntended(s, rules, ingress, chain);
    r := Ok(chain);
  }

  function Direct(s: Sets): seq<Statement> {
    (if |s.direct4| > 0 then [ReturnIfTo(V4, s.direct4)] else [])
    + (if |s.direct6| > 0 then [ReturnIfTo(V6, s.direct6)] else [])
  }

  function IntoTunnel(s: Sets): seq<Statement> {
    (if |s.tunnel4| > 0 then [MarkIfTo(V4, s.tunnel4)] else [])
    + (if |s.tunnel6| > 0 then [MarkIfTo(V6, s.tunnel6)] else [])
  }

  predicate ValidSets(s: Sets) {
    AllValid(s.tunnel4) && AllValid(s.tunnel6) && AllValid(s.direct4) && AllValid(s.direct6)
  }

  lemma SetsAreValid(s: Sets, rules: seq<RouteRule>)
    requires Classified(s, rules) && Parsed(rules)
    ensures ValidSets(s)
  {
  }

  lemma SetsMean(s: Sets, rules: seq<RouteRule>, a: Arrival)
    requires Classified(s, rules) && Parsed(rules) && ValidSets(s)
    ensures Names(rules, true, a) <==> Within(s.tunnel4, V4, a) || Within(s.tunnel6, V6, a)
    ensures Names(rules, false, a) <==> Within(s.direct4, V4, a) || Within(s.direct6, V6, a)
  {
    forall t | Names(rules, t, a)
      ensures if t then Within(s.tunnel4, V4, a) || Within(s.tunnel6, V6, a) else Within(s.direct4, V4, a) || Within(s.direct6, V6, a)
    {
      var r :| r in rules && r.Subnet? && r.tunnel == t && r.network.Some?
        && r.network.value.family == a.family && r.network.value.Contains(a.packet.dst);
      assert r == Subnet(Some(r.network.value), t);
    }
  }

  lemma {:induction false} TunnelLines(s: Sets, a: Arrival, mark: Mark)
    requires ValidSets(s)
    ensures Runnable(IntoTunnel(s))
    ensures MarkAfter(IntoTunnel(s), a, mark) ==
      if Within(s.tunnel4, V4, a) || Within(s.tunnel6, V6, a) then mark + TUNNEL_MARK else mark
  {
    var rest := if |s.tunnel6| > 0 then [MarkIfTo(V6, s.tunnel6)] else [];
    var m := if Within(s.tunnel4, V4, a) then mark + TUNNEL_MARK else mark;
    assert |s.tunnel6| > 0 ==> rest[1..] == [];
    assert MarkAfter(rest, a, m) == if Within(s.tunnel6, V6, a) then m + TUNNEL_MARK else m;
    assert |s.tunnel4| > 0 ==> IntoTunnel(s)[1..] == rest;
    assert |s.tunnel4| == 0 ==> IntoTunnel(s) == rest;
    assert MarkAfter(IntoTunnel(s), a, mark) == MarkAfter(rest, a, m);
    assert mark + TUNNEL_MARK + TUNNEL_MARK == mark + TUNNEL_MARK;
  }

  /** A stretch of returns lets a packet on only if none applies. */
  lemma {:induction false} DirectLines(s: Sets, tail: seq<Statement>, a: Arrival, mark: Mark)
    requires ValidSets(s) && Runnable(tail)
    ensures Runnable(Direct(s) + tail)
    ensures MarkAfter(Direct(s) + tail, a, mark) ==
      if Within(s.direct4, V4, a) || Within(s.direct6, V6, a) then mark else MarkAfter(tail, a, mark)
  {
    var rest := (if |s.direct6| > 0 then [ReturnIfTo(V6, s.direct6)] else []) + tail;
    assert |s.direct4| > 0 ==> (Direct(s) + tail)[1..] == rest;
    assert |s.direct4| == 0 ==> Direct(s) + tail == rest;
    assert |s.direct6| > 0 ==> rest[1..] == tail;
    assert |s.direct6| == 0 ==> rest == tail;
  }

  lemma ChainMeans(s: Sets, ingress: seq<string>, chain: seq<Statement>, a: Arrival)
    requires ValidSets(s)
    requires chain == [ReturnUnlessFrom(ingress), ReturnIfReply] + Direct(s) + IntoTunnel(s)
    ensures Runnable(chain)
    ensures MarkAfter(chain, a, a.packet.mark) ==
      if a.from in ingress && !a.reply
        && !(Within(s.direct4, V4, a) || Within(s.direct6, V6, a))
        && (Within(s.tunnel4, V4, a) || Within(s.tunnel6, V6, a))
      then a.packet.mark + TUNNEL_MARK else a.packet.mark
  {
    TunnelLines(s, a, a.packet.mark);
    DirectLines(s, IntoTunnel(s), a, a.packet.mark);
    assert chain[1..][1..] == Direct(s) + IntoTunnel(s);
  }

  lemma ChainRuns(s: Sets, ingress: seq<string>, chain: seq<Statement>)
    requires ValidSets(s) && chain == [ReturnUnlessFrom(ingress), ReturnIfReply] + Direct(s) + IntoTunnel(s)
    ensures Runnable(chain)
  {
  }

  /** The chain of these sets marks what the rules ask for. */
  lemma ChainIsIntended(s: Sets, rules: seq<RouteRule>, ingress: seq<string>, chain: seq<Statement>)
    requires Classified(s, rules) && Parsed(rules) && ValidSets(s)
    requires chain == [ReturnUnlessFrom(ingress), ReturnIfReply] + Direct(s) + IntoTunnel(s)
    ensures Runnable(chain)
    ensures forall a: Arrival :: Marked(chain, a) == Intended(rules, ingress, a)
  {
    ChainRuns(s, ingress, chain);
    hide MarkAfter, Runnable, Classified, Direct, IntoTunnel, Names, Within, ValidSets;
    forall a: Arrival ensures Marked(chain, a) == Intended(rules, ingress, a) {
      ChainMeans(s, ingress, chain, a);
      SetsMean(s, rules, a);
    }
  }
}
