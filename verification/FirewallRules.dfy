/** Traffic rules and the check that a new one could act
    (internal/adapters/openwrt/firewall_rules.go). The firewall acts on the
    first rule that matches, so a rule below one that decides all its traffic
    would never act. */
module FirewallRules {
  import opened Outcomes
  import opened Text

  datatype Action = Accept | Reject | Drop | Nothing

  /** A rule as read from the device. `to` is a zone, "*" for every zone, or
      empty for the router itself. `unsupported` are conditions the panel
      cannot read; a system rule ships with the firewall. */
  datatype Rule = Rule(id: string, enabled: bool, from: string, to: string, protocols: seq<string>,
                       ports: string, action: Action, family: string, unsupported: seq<string>, system: bool)

  /** A rule as asked for. */
  datatype Config = Config(enabled: bool, from: string, to: string, protocols: seq<string>,
                           ports: string, action: Action, family: string)

  datatype Range = Range(first: nat, last: nat)

  // ---- Lists of ports ----

  predicate IsSeparator(c: char) { c == ' ' || c == ',' || c == '\t' }

  function WordLength(v: string): (n: nat)
    ensures n <= |v| && (n < |v| ==> IsSeparator(v[n])) && (v != "" && !IsSeparator(v[0]) ==> n > 0)
    ensures forall k :: 0 <= k < n ==> !IsSeparator(v[k])
  {
    if v == "" || IsSeparator(v[0]) then 0 else 1 + WordLength(v[1..])
  }

  function Items(v: string): seq<string> {
    if v == "" then []
    else if IsSeparator(v[0]) then Items(v[1..])
    else var n := WordLength(v); [v[..n]] + Items(v[n..])
  }

  predicate IsItem(w: string) { w != "" && forall k :: 0 <= k < |w| ==> !IsSeparator(w[k]) }

  lemma {:induction false} ItemsAreItems(v: string)
    ensures forall w :: w in Items(v) ==> IsItem(w)
  {
    if v != "" {
      if IsSeparator(v[0]) {
        ItemsAreItems(v[1..]);
      } else {
        ItemsAreItems(v[WordLength(v)..]);
      }
    }
  }

  lemma WordEnds(w: string, rest: string)
    requires IsItem(w) && (rest == "" || IsSeparator(rest[0]))
    ensures WordLength(w + rest) == |w|
  {
    var v := w + rest;
    assert forall k :: 0 <= k < |w| ==> v[k] == w[k];
    assert rest != "" ==> v[|w|] == rest[0];
  }

  /** Items joined by spaces read back as the same items. */
  lemma {:induction false} ItemsOfJoin(items: seq<string>)
    requires forall w :: w in items ==> IsItem(w)
    ensures Items(Join(items)) == items
  {
    if items != [] {
      var w := items[0];
      var rest := if |items| == 1 then "" else " " + Join(items[1..]);
      assert Join(items) == w + rest;
      WordEnds(w, rest);
      assert (w + rest)[..|w|] == w && (w + rest)[|w|..] == rest;
      if |items| > 1 {
        assert rest[1..] == Join(items[1..]);
        ItemsOfJoin(items[1..]);
      }
    }
  }

  /** One port or a range, "22" or "8000-8080". */
  function ParsePorts(v: string): (r: Option<Range>)
    ensures r.Some? ==> 1 <= r.value.first <= r.value.last <= 65535
  {
    var t := TrimSpace(v);
    var n := CountDigits(t);
    if n == 0 || n > 5 || (n < |t| && t[n] != '-') then None
    else
      var second := if n == |t| then t[..n] else t[n + 1..];
      var k := CountDigits(second);
      if k == 0 || k > 5 || k < |second| then None
      else
        assert second[..k] == second;
        var first, last := DecValue(t[..n]), DecValue(second);
        if first < 1 || last > 65535 || last < first then None else Some(Range(first, last))
  }

  lemma {:induction false} OnlyDigits(s: string, rest: string)
    requires AllDigits(s) && (rest == "" || !IsDigit(rest[0]))
    ensures CountDigits(s + rest) == |s|
  {
    if s == "" {
      assert s + rest == rest;
    } else {
      assert (s + rest)[1..] == s[1..] + rest;
      OnlyDigits(s[1..], rest);
    }
  }

  lemma {:induction false} FewDigits(n: nat, bound: nat, digits: nat)
    requires n < bound && digits >= 1 && bound <= Power10(digits)
    ensures |Decimal(n)| <= digits
    decreases digits
  {
    if n >= 10 {
      assert digits > 1;
      FewDigits(n / 10, Power10(digits - 1), digits - 1);
    }
  }

  function Power10(n: nat): nat { if n == 0 then 1 else 10 * Power10(n - 1) }

  /** A port, or two with a dash between them, read as those ports when they are
      in order and each is a port. */
  lemma PortsRead(a: nat, b: nat)
    requires a < 100000 && b < 100000
    ensures ParsePorts(Decimal(a)) == if 1 <= a <= 65535 then Some(Range(a, a)) else None
    ensures ParsePorts(Decimal(a) + ("-" + Decimal(b))) == if 1 <= a <= b <= 65535 then Some(Range(a, b)) else None
  {
    hide Decimal, TrimSpace, CountDigits, DecValue;
    FiveDigits(a);
    FiveDigits(b);
    var x, y := Decimal(a), Decimal(b);
    var both := x + ("-" + y);
    OnlyDigits(x, "");
    OnlyDigits(y, "");
    OnlyDigits(x, "-" + y);
    assert x + "" == x && y + "" == y && x[..|x|] == x && y[..|y|] == y && both[..|x|] == x && both[|x| + 1..] == y;
    NoBlankEnds(x);
    NoBlankEnds(both);
  }

  lemma FiveDigits(n: nat)
    requires n < 100000
    ensures 1 <= |Decimal(n)| <= 5
  {
    assert Power10(3) == 1000;
    assert Power10(5) == 100000;
    FewDigits(n, 100000, 5);
  }

  lemma NoBlankEnds(v: string)
    requires v != "" && IsDigit(v[0]) && IsDigit(v[|v| - 1])
    ensures TrimSpace(v) == v
  {
  }

  /** Blanks, commas and tabs keep items apart. */
  lemma ItemsApart(w: string, c: char, rest: string)
    requires w != "" && ' ' !in w && ',' !in w && '\t' !in w
    requires c == ' ' || c == ',' || c == '\t'
    ensures Items(w + ([c] + rest)) == [w] + Items(rest)
  {
    WordEnds(w, [c] + rest);
    var v := w + ([c] + rest);
    assert v[0] == w[0] && v[..|w|] == w && v[|w|..] == [c] + rest && ([c] + rest)[1..] == rest;
  }

  function AllPorts(items: seq<string>): (r: Option<seq<Range>>)
    ensures r.Some? ==> |r.value| == |items| && forall k :: 0 <= k < |items| ==> 1 <= r.value[k].first <= r.value[k].last
  {
    if items == [] then Some([])
    else
      var head := ParsePorts(items[0]);
      var rest := AllPorts(items[1..]);
      if head.None? || rest.None? then None else Some([head.value] + rest.value)
  }

  /** A list of ports: its usual spelling and what it holds. */
  function ParsePortList(v: string): Option<(string, seq<Range>)> {
    var items := Items(v);
    if items == [] || |items| > 32 then None
    else
      var ranges := AllPorts(items);
      if ranges.None? then None else Some((Join(items), ranges.value))
  }

  lemma {:induction false} EachIsRead(items: seq<string>)
    requires forall w :: w in items ==> ParsePorts(w).Some?
    ensures AllPorts(items).Some? && |AllPorts(items).value| == |items|
    ensures forall k :: 0 <= k < |items| ==> AllPorts(items).value[k] == ParsePorts(items[k]).value
  {
    hide ParsePorts;
    if items != [] {
      EachIsRead(items[1..]);
    }
  }

  predicate ReadAs(read: (string, seq<Range>), items: seq<string>) {
    && read.0 == Join(items) && |read.1| == |items|
    && forall k :: 0 <= k < |items| ==> ParsePorts(items[k]) == Some(read.1[k])
  }

  /** Up to 32 items that each read as ports read as those ports, in their order. */
  lemma ListsRead(items: seq<string>)
    requires forall w :: w in items ==> IsItem(w) && ParsePorts(w).Some?
    ensures ParsePortList(Join(items)).Some? <==> 1 <= |items| <= 32
    ensures ParsePortList(Join(items)).Some? ==> ReadAs(ParsePortList(Join(items)).value, items)
  {
    hide ParsePorts, Items, AllPorts;
    ItemsOfJoin(items);
    EachIsRead(items);
  }

  /** The usual spelling means the same ports. */
  lemma SpellingKeepsPorts(v: string)
    requires ParsePortList(v).Some?
    ensures ParsePortList(ParsePortList(v).value.0) == ParsePortList(v)
    ensures ParsePortList(v).value.0 != ""
  {
    var items := Items(v);
    ItemsAreItems(v);
    ItemsOfJoin(items);
  }

  predicate InRanges(port: int, ranges: seq<Range>) {
    exists k :: 0 <= k < |ranges| && ranges[k].first <= port <= ranges[k].last
  }

  predicate Covered(n: Range, ranges: seq<Range>) {
    forall p :: n.first <= p <= n.last ==> InRanges(p, ranges)
  }

  method RangeCovered(n: Range, ranges: seq<Range>) returns (covered: bool)
    ensures covered <==> Covered(n, ranges)
  {
    var p := n.first;
    while p <= n.last
      invariant forall q :: n.first <= q < p ==> InRanges(q, ranges)
      decreases n.last + 1 - p
    {
      var found := false;
      for k := 0 to |ranges|
        invariant !found
        invariant forall j :: 0 <= j < k ==> !(ranges[j].first <= p <= ranges[j].last)
      {
        if ranges[k].first <= p <= ranges[k].last {
          found := true;
          break;
        }
      }
      if !found {
        assert !InRanges(p, ranges);
        return false;
      }
      p := p + 1;
    }
    return true;
  }

  // ---- Asking for a rule ----

  predicate PortsApply(protocols: seq<string>) {
    protocols != [] && forall p :: p in protocols ==> p == "tcp" || p == "udp"
  }

  const KNOWN := ["tcp", "udp", "icmp"]

  predicate SomeSpelled(words: seq<string>, w: string) {
    exists k :: 0 <= k < |words| && Spelled(words[k]) == w
  }

  /** Any of TCP, UDP and ICMP in that order, or "all" on its own. */
  function RuleProtocols(words: seq<string>): (r: Option<seq<string>>)
    ensures r.Some? ==> r.value != [] && (r.value == ["all"] || forall p :: p in r.value ==> p in KNOWN)
  {
    var tcp := if SomeSpelled(words, "tcp") then ["tcp"] else [];
    var udp := if SomeSpelled(words, "udp") then ["udp"] else [];
    var icmp := if SomeSpelled(words, "icmp") then ["icmp"] else [];
    if exists k :: 0 <= k < |words| && Spelled(words[k]) !in ["tcp", "udp", "icmp", "all"] then None
    else if SomeSpelled(words, "all") then if tcp + udp + icmp == [] then Some(["all"]) else None
    else if tcp + udp + icmp == [] then None
    else Some(tcp + udp + icmp)
  }

  predicate IsZone(w: string) { w == "" || w == "*" || IsName(w) }

  /** The rule in the form it is written, or nothing when it cannot be. */
  function Normalize(c: Config): Option<Config> {
    var from, to := TrimSpace(c.from), TrimSpace(c.to);
    var protocols := RuleProtocols(c.protocols);
    var family := Spelled(c.family);
    if from == "" || !IsZone(from) || !IsZone(to) || protocols.None? || c.action == Nothing || family !in ["", "ipv4", "ipv6"] then None
    else if TrimSpace(c.ports) == "" then Some(c.(from := from, to := to, protocols := protocols.value, ports := "", family := family))
    else if !PortsApply(protocols.value) || ParsePortList(c.ports).None? then None
    else Some(c.(from := from, to := to, protocols := protocols.value, ports := ParsePortList(c.ports).value.0, family := family))
  }

  /** A rule on the device in the form the check takes; nothing when the panel
      cannot state it. */
  function AsConfig(r: Rule): Option<Config> {
    var protocols := RuleProtocols(r.protocols);
    if r.action == Nothing || protocols.None? then None
    else if r.ports != "" && ParsePortList(r.ports).None? then None
    else Some(Config(r.enabled, r.from, r.to, protocols.value,
                     if r.ports == "" then "" else ParsePortList(r.ports).value.0,
                     r.action, if r.family == "any" then "" else r.family))
  }

  // ---- The check ----

  /** The ports asked for; none when they cannot be read. */
  function Needed(c: Config): seq<Range> {
    if ParsePortList(c.ports).Some? then ParsePortList(c.ports).value.1 else []
  }

  predicate PortsCovered(r: Rule, c: Config) {
    r.ports == ""
    || (c.ports != "" && PortsApply(c.protocols) && ParsePortList(r.ports).Some?
        && forall n :: n in Needed(c) ==> Covered(n, ParsePortList(r.ports).value.1))
  }

  predicate Covers(r: Rule, c: Config) {
    && (r.from == c.from || r.from == "*")
    && (r.to == c.to || (r.to == "*" && c.to != ""))
    && (r.family == "" || r.family == "any" || r.family == c.family)
    && ("all" in r.protocols || ("all" !in c.protocols && forall p :: p in c.protocols ==> p in r.protocols))
    && PortsCovered(r, c)
  }

  /** Certain to silence the wanted rule: readable, on, decided the other way. */
  predicate Silences(r: Rule, c: Config) {
    r.enabled && r.unsupported == [] && r.action != Nothing && r.action.Accept? != c.action.Accept? && Covers(r, c)
  }

  predicate IsShadowed(earlier: seq<Rule>, c: Config) {
    c.enabled && exists k :: 0 <= k < |earlier| && Silences(earlier[k], c)
  }

  method CoversPorts(r: Rule, c: Config) returns (b: bool)
    ensures b <==> PortsCovered(r, c)
  {
    hide ParsePortList, Covered, PortsApply;
    if r.ports == "" {
      return true;
    }
    if c.ports == "" || !PortsApply(c.protocols) {
      return false;
    }
    var have := ParsePortList(r.ports);
    if have.None? {
      return false;
    }
    var need := Needed(c);
    for k := 0 to |need|
      invariant forall j :: 0 <= j < k ==> Covered(need[j], have.value.1)
    {
      var covered := RangeCovered(need[k], have.value.1);
      if !covered {
        assert need[k] in need;
        return false;
      }
    }
    return true;
  }

  /** The first earlier rule that silences the wanted one. */
  method ShadowedBy(earlier: seq<Rule>, c: Config) returns (cover: Option<nat>)
    ensures cover.Some? <==> IsShadowed(earlier, c)
    ensures cover.Some? ==> cover.value < |earlier| && Silences(earlier[cover.value], c)
    ensures cover.Some? ==> forall k :: 0 <= k < cover.value ==> !Silences(earlier[k], c)
  {
    hide PortsCovered;
    if !c.enabled {
      return None;
    }
    for k := 0 to |earlier|
      invariant forall j :: 0 <= j < k ==> !Silences(earlier[j], c)
    {
      var r := earlier[k];
      var ports := CoversPorts(r, c);
      if r.enabled && r.unsupported == [] && r.action != Nothing && r.action.Accept? != c.action.Accept?
         && (r.from == c.from || r.from == "*") && (r.to == c.to || (r.to == "*" && c.to != ""))
         && (r.family == "" || r.family == "any" || r.family == c.family)
         && ("all" in r.protocols || ("all" !in c.protocols && forall p :: p in c.protocols ==> p in r.protocols))
         && ports {
        return Some(k);
      }
    }
    return None;
  }
}
