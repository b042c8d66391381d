/** What the order of rules means: the first rule that matches a packet decides
    it (internal/adapters/openwrt/firewall_rules.go). A rule that the check
    refuses would have changed nothing for any packet. */
module Shadowing {
  import opened Outcomes
  import opened Text
  import opened FirewallRules

  datatype Transport = Tcp(port: nat) | Udp(port: nat) | Portless

  /** A packet to the router (`to` empty) or forwarded into a zone. `words` and
      `families` are the further protocol and family words that hold of it,
      `meets` the rules whose unread conditions it meets: any sets, so that what
      is said of every packet is said of every meaning of what the panel cannot
      read. */
  datatype Packet = Packet(from: string, to: string, v6: bool, transport: Transport, words: set<string>, families: set<string>,
                           meets: set<string>)

  predicate FamilyHolds(w: string, p: Packet) {
    w == "" || w == "any" || (w == "ipv4" && !p.v6) || (w == "ipv6" && p.v6) || (w !in ["ipv4", "ipv6"] && w in p.families)
  }

  predicate ProtocolHolds(w: string, p: Packet) {
    w == "all" || (w == "tcp" && p.transport.Tcp?) || (w == "udp" && p.transport.Udp?)
    || (w !in ["tcp", "udp"] && w in p.words)
  }

  predicate SomeProtocol(protocols: seq<string>, p: Packet) {
    exists w :: w in protocols && ProtocolHolds(w, p)
  }

  /** A list of ports the panel can read holds of the ports in it; anything
      else holds as `meets` says. */
  predicate PortsHold(ports: string, id: string, p: Packet) {
    ports == ""
    || (if p.transport.Portless? || ParsePortList(ports).None? then id in p.meets
        else InRanges(p.transport.port, ParsePortList(ports).value.1))
  }

  predicate ZoneHolds(rule: string, zone: string) { rule == zone || (rule == "*" && zone != "") }

  predicate Matches(r: Rule, p: Packet) {
    && r.enabled && r.action != Nothing
    && ZoneHolds(r.from, p.from) && ZoneHolds(r.to, p.to)
    && FamilyHolds(r.family, p) && SomeProtocol(r.protocols, p) && PortsHold(r.ports, r.id, p)
    && (r.unsupported == [] || r.id in p.meets)
  }

  /** The first rule that matches. */
  function Verdict(rules: seq<Rule>, p: Packet): Option<Rule> {
    if rules == [] then None
    else if Matches(rules[0], p) then Some(rules[0])
    else Verdict(rules[1..], p)
  }

  /** The order in which the firewall lays the rules out: those from every zone
      before those of one zone. */
  function Everywhere(rules: seq<Rule>, star: bool): seq<Rule> {
    if rules == [] then []
    else (if (rules[0].from == "*") == star then [rules[0]] else []) + Everywhere(rules[1..], star)
  }

  function LaidOut(rules: seq<Rule>): seq<Rule> { Everywhere(rules, true) + Everywhere(rules, false) }

  function Inserted(rules: seq<Rule>, at: nat, r: Rule): seq<Rule>
    requires at <= |rules|
  {
    rules[..at] + [r] + rules[at..]
  }

  /** A zone word of a packet is a zone, never "*". */
  predicate Real(p: Packet) { p.from != "*" && p.to != "*" }

  // ---- The request and the rule that states it ----

  /** The rule does no more than the request says. */
  ghost predicate States(r: Rule, c: Config) {
    forall p :: Real(p) && Matches(r, p) ==> Asked(c, r.id, p)
  }

  predicate Asked(c: Config, id: string, p: Packet) {
    && ZoneHolds(c.from, p.from) && ZoneHolds(c.to, p.to)
    && FamilyHolds(c.family, p) && SomeProtocol(c.protocols, p) && PortsHold(c.ports, id, p)
  }

  /** The rule written for a request. */
  function Written(id: string, c: Config): Rule {
    Rule(id, c.enabled, c.from, c.to, c.protocols, c.ports, c.action, c.family, [], false)
  }

  lemma WrittenStates(id: string, c: Config)
    ensures States(Written(id, c), c)
  {
  }

  predicate OneSpelling(protocols: seq<string>) {
    forall w :: w in protocols ==> Spelled(w) == w
  }

  lemma KnownSpelled()
    ensures OneSpelling(KNOWN) && OneSpelling(["all"]) && OneSpelling(["tcp"])
  {
    hide Spelled;
    SmallLetters("tcp");
    SmallLetters("udp");
    SmallLetters("icmp");
    SmallLetters("all");
  }

  lemma SmallLetters(w: string)
    requires w != "" && forall k :: 0 <= k < |w| ==> 'a' <= w[k] <= 'z'
    ensures Spelled(w) == w
  {
    LowerAlready(w);
  }

  lemma {:induction false} LowerAlready(w: string)
    requires forall k :: 0 <= k < |w| ==> 'a' <= w[k] <= 'z'
    ensures ToLower(w) == w
  {
    if w != "" {
      LowerAlready(w[1..]);
    }
  }

  /** What a request is written with is spelled as it is read. */
  lemma AsksSpelled(protocols: seq<string>)
    requires protocols == ["all"] || forall w :: w in protocols ==> w in KNOWN
    ensures OneSpelling(protocols)
  {
    KnownSpelled();
    hide Spelled;
  }

  lemma AsConfigStates(r: Rule)
    requires AsConfig(r).Some? && OneSpelling(r.protocols)
    ensures States(r, AsConfig(r).value)
  {
    hide Spelled, ParsePortList, InRanges;
    var c := AsConfig(r).value;
    if r.ports != "" {
      SpellingKeepsPorts(r.ports);
    }
    forall p | Real(p) && Matches(r, p) ensures Asked(c, r.id, p) {
      var w :| w in r.protocols && ProtocolHolds(w, p);
      var k :| 0 <= k < |r.protocols| && r.protocols[k] == w;
      assert SomeSpelled(r.protocols, w);
      assert Spelled(r.protocols[k]) in ["tcp", "udp", "icmp", "all"];
      assert w in c.protocols;
    }
  }

  // ---- Covering ----

  lemma PortsCover(r: Rule, c: Config, id: string, p: Packet)
    requires PortsCovered(r, c) && PortsHold(c.ports, id, p) && SomeProtocol(c.protocols, p)
    requires c.ports != "" ==> ParsePortList(c.ports).Some?
    ensures PortsHold(r.ports, r.id, p)
  {
    hide ParsePortList;
    if r.ports != "" {
      var w :| w in c.protocols && ProtocolHolds(w, p);
      assert !p.transport.Portless?;
      var need := Needed(c);
      var k :| 0 <= k < |need| && need[k].first <= p.transport.port <= need[k].last;
      assert need[k] in need;
    }
  }

  /** The rule sees the request's traffic: a rule for every zone sees none that
      the router itself sends, which comes from no zone. */
  predicate Sees(r: Rule, c: Config) { c.from == "" ==> r.from != "*" }

  /** Some earlier rule is certain to silence the request and sees its traffic. */
  predicate IsSilenced(earlier: seq<Rule>, c: Config) {
    exists k :: 0 <= k < |earlier| && Silences(earlier[k], c) && Sees(earlier[k], c)
  }

  /** What covers a request and sees its traffic matches every packet of it. */
  lemma CoversMatches(r: Rule, c: Config, id: string, p: Packet)
    requires Covers(r, c) && r.enabled && r.unsupported == [] && r.action != Nothing
    requires Real(p) && Sees(r, c) && Asked(c, id, p) && (c.ports != "" ==> ParsePortList(c.ports).Some?)
    ensures Matches(r, p)
  {
    hide PortsCovered, PortsHold, InRanges, ParsePortList;
    PortsCover(r, c, id, p);
    var w :| w in c.protocols && ProtocolHolds(w, p);
    assert ProtocolHolds("all", p);
  }

  // ---- A rule that never acts ----

  lemma {:induction false} VerdictOfParts(a: seq<Rule>, b: seq<Rule>, p: Packet)
    ensures Verdict(a + b, p) == if Verdict(a, p).Some? then Verdict(a, p) else Verdict(b, p)
  {
    if a == [] {
      assert a + b == b;
    } else {
      assert (a + b)[1..] == a[1..] + b;
      VerdictOfParts(a[1..], b, p);
    }
  }

  lemma {:induction false} SomeoneDecides(rules: seq<Rule>, k: nat, p: Packet)
    requires k < |rules| && Matches(rules[k], p)
    ensures Verdict(rules, p).Some?
  {
    if k > 0 && !Matches(rules[0], p) {
      SomeoneDecides(rules[1..], k - 1, p);
    }
  }

  /** Put in anywhere below a rule that matches whatever it matches, a rule
      decides nothing. */
  lemma NeverActs(before: seq<Rule>, r: Rule, after: seq<Rule>, p: Packet)
    requires Matches(r, p) ==> Verdict(before, p).Some?
    ensures Verdict(before + [r] + after, p) == Verdict(before + after, p)
  {
    VerdictOfParts(before + [r], after, p);
    VerdictOfParts(before, [r], p);
    VerdictOfParts(before, after, p);
    assert [r][1..] == [];
  }

  lemma {:induction false} EverywhereOfParts(a: seq<Rule>, b: seq<Rule>, star: bool)
    ensures Everywhere(a + b, star) == Everywhere(a, star) + Everywhere(b, star)
  {
    if a == [] {
      assert a + b == b;
    } else {
      var all, head := a + b, if (a[0].from == "*") == star then [a[0]] else [];
      assert all[0] == a[0] && all[1..] == a[1..] + b;
      EverywhereOfParts(a[1..], b, star);
      assert Everywhere(all, star) == head + (Everywhere(a[1..], star) + Everywhere(b, star));
    }
  }

  lemma {:induction false} StaysListed(rules: seq<Rule>, k: nat) returns (j: nat)
    requires k < |rules|
    ensures j < |Everywhere(rules, rules[k].from == "*")| && Everywhere(rules, rules[k].from == "*")[j] == rules[k]
  {
    var star := rules[k].from == "*";
    if k == 0 {
      j := 0;
    } else {
      var i := StaysListed(rules[1..], k - 1);
      j := if (rules[0].from == "*") == star then i + 1 else i;
    }
  }

  /** A placement refused as shadowed is a placement that would have changed
      nothing: for every packet and every meaning of the conditions that are
      not read, the rule that decides is the same with the new rule in place
      and without it, in the order of the file and in the order the firewall
      lays the rules out. */
  lemma RefusedIsNoChange(rules: seq<Rule>, at: nat, r: Rule, c: Config, p: Packet)
    requires at <= |rules| && IsSilenced(rules[..at], c)
    requires States(r, c) && r.from == c.from && (c.ports != "" ==> ParsePortList(c.ports).Some?)
    requires Real(p)
    ensures Verdict(Inserted(rules, at, r), p) == Verdict(rules, p)
    ensures Verdict(LaidOut(Inserted(rules, at, r)), p) == Verdict(LaidOut(rules), p)
  {
    hide Matches, Covers, ParsePortList, Asked, LaidOut, Verdict;
    var before, after := rules[..at], rules[at..];
    var k :| 0 <= k < |before| && Silences(before[k], c) && Sees(before[k], c);
    assert before[k].from == r.from || before[k].from == "*" by { CoversZones(before[k], c); }
    if Matches(r, p) {
      CoversMatches(before[k], c, r.id, p);
      SomeoneDecides(before, k, p);
    }
    assert before + after == rules;
    NeverActs(before, r, after, p);
    LaidOutNeverActs(before, k, r, after, p);
  }

  lemma CoversZones(r: Rule, c: Config)
    requires Covers(r, c)
    ensures r.from == c.from || r.from == "*"
  {
  }

  lemma LaidOutParts(before: seq<Rule>, middle: seq<Rule>, after: seq<Rule>)
    ensures LaidOut(before + middle + after) ==
      (Everywhere(before, true) + Everywhere(middle, true) + Everywhere(after, true))
      + (Everywhere(before, false) + Everywhere(middle, false) + Everywhere(after, false))
  {
    EverywhereOfParts(before + middle, after, true);
    EverywhereOfParts(before + middle, after, false);
    EverywhereOfParts(before, middle, true);
    EverywhereOfParts(before, middle, false);
  }

  lemma NoneEverywhere()
    ensures Everywhere([], true) == [] && Everywhere([], false) == []
  {
  }

  lemma OneEverywhere(r: Rule, star: bool)
    ensures Everywhere([r], star) == if (r.from == "*") == star then [r] else []
  {
    assert [r][1..] == [];
  }

  /** The same in the order of the firewall, when a rule that runs no later
      takes all that the new one matches. */
  lemma LaidOutNeverActs(before: seq<Rule>, k: nat, r: Rule, after: seq<Rule>, p: Packet)
    requires k < |before| && (before[k].from == r.from || before[k].from == "*")
    requires Matches(r, p) ==> Matches(before[k], p)
    ensures Verdict(LaidOut(before + [r] + after), p) == Verdict(LaidOut(before + after), p)
  {
    hide Matches, Everywhere, LaidOut, Verdict;
    LaidOutParts(before, [r], after);
    LaidOutParts(before, [], after);
    assert Everywhere([], true) == [] && Everywhere([], false) == [] by { NoneEverywhere(); }
    assert before + [] + after == before + after;
    OneEverywhere(r, true);
    OneEverywhere(r, false);
    var j := StaysListed(before, k);
    var s, z := Everywhere(before, true), Everywhere(before, false);
    var s', z' := Everywhere(after, true), Everywhere(after, false);
    if r.from == "*" {
      if Matches(r, p) {
        SomeoneDecides(s, j, p);
      }
      NeverActs(s, r, s' + (z + z'), p);
      assert (s + [r] + s') + (z + [] + z') == s + [r] + (s' + (z + z'));
      assert (s + [] + s') + (z + [] + z') == s + (s' + (z + z'));
    } else {
      if Matches(r, p) {
        if before[k].from == "*" {
          SomeoneDecides(s, j, p);
          VerdictOfParts(s, s' + z, p);
        } else {
          SomeoneDecides(z, j, p);
          VerdictOfParts(s, s' + z, p);
          VerdictOfParts(s', z, p);
        }
      }
      NeverActs(s + (s' + z), r, z', p);
      assert (s + [] + s') + (z + [r] + z') == (s + (s' + z)) + [r] + z';
      assert (s + [] + s') + (z + [] + z') == (s + (s' + z)) + z';
    }
  }

  // ---- Only certainty refuses ----

  /** The form in which the check is asked, for a new rule or a moved one. */
  predicate Normal(c: Config) {
    && c.family in ["", "ipv4", "ipv6"]
    && c.protocols != [] && (c.protocols == ["all"] || forall w :: w in c.protocols ==> w in KNOWN)
    && (c.ports != "" ==> PortsApply(c.protocols) && ParsePortList(c.ports).Some?)
  }

  lemma NormalizeIsNormal(c: Config)
    requires Normalize(c).Some?
    ensures Normal(Normalize(c).value) && Normalize(c).value.from != ""
  {
    hide RuleProtocols, ParsePortList, Spelled, TrimSpace;
    if ParsePortList(c.ports).Some? {
      SpellingKeepsPorts(c.ports);
    }
  }

  /** The traffic a request is about, as it is typed: with blanks about the words
      and in any letters. */
  predicate IsAbout(c: Config, p: Packet) {
    && ZoneHolds(TrimSpace(c.from), p.from) && ZoneHolds(TrimSpace(c.to), p.to) && FamilyHolds(Spelled(c.family), p)
    && (exists w :: w in c.protocols && ProtocolHolds(Spelled(w), p))
    && (TrimSpace(c.ports) != "" ==> PortAsked(c.ports, p.transport))
  }

  predicate PortAsked(ports: string, t: Transport) {
    && (t.Tcp? || t.Udp?) && ParsePortList(ports).Some? && InRanges(t.port, ParsePortList(ports).value.1)
  }

  lemma SomeIsSpelled(words: seq<string>, w: string)
    ensures SomeSpelled(words, w) <==> exists x :: x in words && Spelled(x) == w
  {
    if x :| x in words && Spelled(x) == w {
      var k :| 0 <= k < |words| && words[k] == x;
    }
  }

  lemma ProtocolsAsked(words: seq<string>, p: Packet)
    requires RuleProtocols(words).Some?
    ensures SomeProtocol(RuleProtocols(words).value, p) <==> exists w :: w in words && ProtocolHolds(Spelled(w), p)
  {
    hide Spelled, ProtocolHolds, SomeSpelled;
    SomeIsSpelled(words, "tcp");
    SomeIsSpelled(words, "udp");
    SomeIsSpelled(words, "icmp");
    SomeIsSpelled(words, "all");
    assert ProtocolHolds("all", p) by { AllHolds(p); }
    forall w | w in words ensures Spelled(w) in ["tcp", "udp", "icmp", "all"] {
      var k :| 0 <= k < |words| && words[k] == w;
    }
    forall w | w in RuleProtocols(words).value ensures exists x :: x in words && Spelled(x) == w {
    }
    forall w | w in words ensures Spelled(w) in RuleProtocols(words).value {
    }
  }

  lemma AllHolds(p: Packet)
    ensures ProtocolHolds("all", p)
  {
  }

  /** The rule written for a request is about exactly the request's traffic, and
      does with it what was asked. */
  lemma RequestIsWritten(id: string, c: Config, p: Packet)
    requires Normalize(c).Some?
    ensures var r := Written(id, Normalize(c).value);
      r.action == c.action && r.enabled == c.enabled && (Matches(r, p) <==> c.enabled && IsAbout(c, p))
  {
    hide TrimSpace, Spelled, RuleProtocols, ParsePortList, ProtocolHolds, IsZone, FamilyHolds;
    ProtocolsAsked(c.protocols, p);
    var r := Written(id, Normalize(c).value);
    if TrimSpace(c.ports) != "" {
      SpellingKeepsPorts(c.ports);
      if SomeProtocol(r.protocols, p) {
        TcpOrUdp(r.protocols, p);
      }
    }
  }

  lemma TcpOrUdp(protocols: seq<string>, p: Packet)
    requires PortsApply(protocols) && SomeProtocol(protocols, p)
    ensures p.transport.Tcp? || p.transport.Udp?
  {
    var w :| w in protocols && ProtocolHolds(w, p);
    assert "udp"[0] != "tcp"[0] && "all"[0] != "tcp"[0] && "all"[0] != "udp"[0];
  }

  /** A zone that one word names and the other does not. */
  function ZoneOf(word: string, other: string): (z: string)
    ensures ZoneHolds(word, z) && (z == "*" ==> word == "*")
    ensures word == "*" ==> z != "*"
    ensures other != word && (other == "*" ==> word == "") ==> !ZoneHolds(other, z)
  {
    if word != "*" then word else if other == "a" then "b" else "a"
  }

  /** A packet of the request that uses one of its protocols. */
  function Sample(r: Rule, c: Config, w: string, port: nat, v6: bool): Packet {
    Packet(ZoneOf(c.from, r.from), ZoneOf(c.to, r.to), v6,
           if w == "tcp" then Tcp(port) else if w == "udp" then Udp(port) else Portless,
           if w == "icmp" then {"icmp"} else {}, {}, {})
  }

  lemma SampleIsAsked(r: Rule, c: Config, id: string, w: string, port: nat, v6: bool)
    requires Normal(c) && w in c.protocols && (c.ports != "" ==> InRanges(port, Needed(c)))
    requires c.family == (if v6 then "ipv6" else "ipv4") || c.family == ""
    ensures Real(Sample(r, c, w, port, v6)) && Asked(c, id, Sample(r, c, w, port, v6))
  {
    hide InRanges, ParsePortList;
    assert ProtocolHolds(w, Sample(r, c, w, port, v6));
  }

  lemma Escapes(r: Rule, c: Config) returns (w: string, port: nat, v6: bool)
    requires Normal(c) && !(Covers(r, c) && Sees(r, c))
    ensures w in c.protocols && (c.ports != "" ==> InRanges(port, Needed(c)))
    ensures c.family == (if v6 then "ipv6" else "ipv4") || c.family == ""
    ensures !Matches(r, Sample(r, c, w, port, v6))
  {
    hide ParsePortList;
    w, port := c.protocols[0], 0;
    v6 := if c.family == "" then r.family == "ipv4" else c.family == "ipv6";
    if c.ports != "" {
      PortsNeeded(c);
      port := Needed(c)[0].first;
      assert InRanges(port, Needed(c));
    }
    if "all" !in r.protocols && "all" !in c.protocols && exists x :: x in c.protocols && x !in r.protocols {
      w :| w in c.protocols && w !in r.protocols;
    } else if !PortsCovered(r, c) {
      if c.ports == "" {
        PortsStartAtOne(r.ports);
      } else if ParsePortList(r.ports).Some? {
        var n :| n in Needed(c) && !Covered(n, ParsePortList(r.ports).value.1);
        var k :| 0 <= k < |Needed(c)| && Needed(c)[k] == n;
        port :| n.first <= port <= n.last && !InRanges(port, ParsePortList(r.ports).value.1);
        assert InRanges(port, Needed(c));
      }
    }
  }

  lemma PortsNeeded(c: Config)
    requires ParsePortList(c.ports).Some?
    ensures Needed(c) != [] && Needed(c)[0].first <= Needed(c)[0].last
  {
  }

  lemma PortsStartAtOne(ports: string)
    ensures ParsePortList(ports).Some? ==> !InRanges(0, ParsePortList(ports).value.1)
  {
  }

  /** An earlier rule that can be read covers a request and sees its traffic
      exactly when it matches every packet of it: the check neither misses such a
      rule nor refuses on less, but for rules for every zone above one for the
      router's own traffic. */
  lemma CoversIsCertainty(r: Rule, c: Config, id: string)
    requires Normal(c) && r.enabled && r.unsupported == [] && r.action != Nothing
    ensures Covers(r, c) && Sees(r, c) <==> forall p :: Real(p) && Asked(c, id, p) ==> Matches(r, p)
  {
    hide Covers, Matches, Asked, Sees;
    if Covers(r, c) && Sees(r, c) {
      forall p | Real(p) && Asked(c, id, p) ensures Matches(r, p) {
        CoversMatches(r, c, id, p);
      }
    } else {
      var w, port, v6 := Escapes(r, c);
      SampleIsAsked(r, c, id, w, port, v6);
    }
  }

  /** A rule the panel can read, switched on, that lets through what the request
      refuses or the other way round, and matches all the request's traffic. */
  ghost predicate DecidesOtherwise(r: Rule, c: Config, id: string) {
    && r.enabled && r.unsupported == [] && r.action != Nothing && (r.action == Accept) != (c.action == Accept)
    && forall p :: Real(p) && Asked(c, id, p) ==> Matches(r, p)
  }

  /** What the check looks for above a request is exactly such a rule; for the
      traffic of a zone it refuses exactly when there is one. */
  lemma SilencedMeans(earlier: seq<Rule>, c: Config, id: string)
    requires Normal(c)
    ensures IsSilenced(earlier, c) <==> exists k :: 0 <= k < |earlier| && DecidesOtherwise(earlier[k], c, id)
    ensures c.enabled && c.from != "" ==> (IsShadowed(earlier, c) <==> IsSilenced(earlier, c))
  {
    hide Covers, Matches, Asked, Normal, Real;
    forall k | 0 <= k < |earlier| ensures Silences(earlier[k], c) && Sees(earlier[k], c) <==> DecidesOtherwise(earlier[k], c, id) {
      var r := earlier[k];
      if r.enabled && r.unsupported == [] && r.action != Nothing {
        CoversIsCertainty(r, c, id);
      }
    }
    hide Silences, DecidesOtherwise;
    assert c.from != "" ==> forall k :: 0 <= k < |earlier| ==> Sees(earlier[k], c);
  }

  /** A rule for what the router itself sends has no zone it comes from. A move
      of it is refused below a rule for every zone, which never sees that
      traffic: there the refused move would have changed something. */
  lemma OwnTrafficRefusedWrongly()
    ensures var r := Rule("own", true, "", "wan", ["udp"], "", Drop, "", [], false);
      var above := Rule("any", true, "*", "wan", ["all"], "", Accept, "", [], false);
      var p := Packet("", "wan", false, Udp(53), {}, {}, {});
      AsConfig(r).Some? && IsShadowed([above], AsConfig(r).value) && Real(p)
      && Verdict(Inserted([above], 1, r), p) == Some(r) && Verdict([above], p) == None
  {
    var r := Rule("own", true, "", "wan", ["udp"], "", Drop, "", [], false);
    var above := Rule("any", true, "*", "wan", ["all"], "", Accept, "", [], false);
    var p := Packet("", "wan", false, Udp(53), {}, {}, {});
    hide Verdict, Inserted, RuleProtocols, Spelled, ParsePortList;
    OneProtocol();
    TwoWords();
    OneAbove(above, r, p);
    assert [above][0] == above && Silences([above][0], AsConfig(r).value);
    assert ProtocolHolds("udp", p) && "udp" in r.protocols;
  }

  lemma TwoWords()
    ensures "udp" != "all" && "" != "*" && "wan" != "*"
  {
    assert "udp"[0] != "all"[0];
  }

  lemma OneAbove(above: Rule, r: Rule, p: Packet)
    requires !Matches(above, p)
    ensures Verdict([above], p) == None
    ensures Verdict(Inserted([above], 1, r), p) == if Matches(r, p) then Some(r) else None
  {
    hide Matches;
    assert [above][1..] == [] && [r][1..] == [];
    assert Inserted([above], 1, r) == [above, r] && [above, r][1..] == [r];
  }

  lemma OneProtocol()
    ensures RuleProtocols(["udp"]) == Some(["udp"])
  {
    SmallLetters("udp");
    OneWord("udp");
  }

  lemma OneWord(w: string)
    requires Spelled(w) == w && w == "udp"
    ensures RuleProtocols([w]) == Some([w])
  {
    hide Spelled;
    var words := [w];
    assert words[0] == w && Spelled(words[0]) == "udp";
    assert "udp"[0] != "tcp"[0] && "udp"[0] != "icmp"[0] && "udp"[0] != "all"[0];
    assert SomeSpelled(words, "udp");
    assert !SomeSpelled(words, "tcp") && !SomeSpelled(words, "icmp") && !SomeSpelled(words, "all");
    assert ["tcp", "udp", "icmp", "all"][1] == w;
    assert [] + ["udp"] + [] == words;
  }
}
