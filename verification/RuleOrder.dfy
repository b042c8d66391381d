/** Placing and moving rules in the firewall file
    (internal/adapters/openwrt/firewall_rules.go). The file holds rules among
    zones, forwardings and the rest; the panel counts among the rules, the
    router among all sections. */
module RuleOrder {
  import opened Outcomes
  import opened Text
  import opened FirewallRules
  import opened Shadowing

  /** A section, with the rule it holds if it is one. */
  datatype Section = Section(id: string, rule: Option<Rule>)

  function Rules(file: seq<Section>): seq<Rule> {
    if file == [] then []
    else (if file[0].rule.Some? then [file[0].rule.value] else []) + Rules(file[1..])
  }

  function Others(file: seq<Section>): seq<Section> {
    if file == [] then []
    else (if file[0].rule.None? then [file[0]] else []) + Others(file[1..])
  }

  /** A rule as it is read: known by its section's name, its protocols in small
      letters with no space about them. */
  predicate IsRead(s: Section) {
    s.rule.Some? ==> s.rule.value.id == s.id && OneSpelling(s.rule.value.protocols)
  }

  /** Section names are unique, and the rules are as read. */
  predicate WellNamed(file: seq<Section>) {
    && (forall i, j :: 0 <= i < j < |file| ==> file[i].id != file[j].id)
    && (forall i :: 0 <= i < |file| ==> IsRead(file[i]))
  }

  function SectionPosition(file: seq<Section>, id: string): (i: int)
    ensures -1 <= i < |file|
    ensures i >= 0 ==> file[i].id == id
    ensures i == -1 ==> forall k :: 0 <= k < |file| ==> file[k].id != id
  {
    if file == [] then -1
    else if file[0].id == id then 0
    else var i := SectionPosition(file[1..], id); if i < 0 then -1 else i + 1
  }

  function RuleIndex(rules: seq<Rule>, id: string): (i: int)
    ensures -1 <= i < |rules|
    ensures i >= 0 ==> rules[i].id == id
  {
    if rules == [] then -1
    else if rules[0].id == id then 0
    else var i := RuleIndex(rules[1..], id); if i < 0 then -1 else i + 1
  }

  /** The router's own reordering: the section leaves its place, what follows
      closes up, and it ends at `place`, or last. */
  function Reordered(file: seq<Section>, from: nat, place: int): seq<Section>
    requires from < |file| && place >= 0
  {
    var rest := file[..from] + file[from + 1..];
    var to := if place > |rest| then |rest| else place;
    rest[..to] + [file[from]] + rest[to..]
  }

  /** A section's name, or its place among its kind when it has none. */
  predicate IsEntry(id: string) {
    IsName(id)
    || exists n :: 2 <= n <= |id| - 3 && id[0] == '@' && IsName(id[1..n]) && id[n] == '[' && id[|id| - 1] == ']'
                   && AllDigits(id[n + 1..|id| - 1]) && |id| - 2 - n <= 6
  }

  function Without(rules: seq<Rule>, at: nat): seq<Rule>
    requires at < |rules|
  {
    rules[..at] + rules[at + 1..]
  }

  // ---- Rules among sections ----

  lemma {:induction false} RulesOfParts(a: seq<Section>, b: seq<Section>)
    ensures Rules(a + b) == Rules(a) + Rules(b)
  {
    if a == [] {
      assert a + b == b;
    } else {
      var all, head := a + b, if a[0].rule.Some? then [a[0].rule.value] else [];
      assert all[0] == a[0] && all[1..] == a[1..] + b;
      RulesOfParts(a[1..], b);
      assert Rules(all) == head + (Rules(a[1..]) + Rules(b)) == (head + Rules(a[1..])) + Rules(b);
    }
  }

  lemma {:induction false} OthersOfParts(a: seq<Section>, b: seq<Section>)
    ensures Others(a + b) == Others(a) + Others(b)
  {
    if a == [] {
      assert a + b == b;
    } else {
      var all, head := a + b, if a[0].rule.None? then [a[0]] else [];
      assert all[0] == a[0] && all[1..] == a[1..] + b;
      OthersOfParts(a[1..], b);
      assert Others(all) == head + (Others(a[1..]) + Others(b)) == (head + Others(a[1..])) + Others(b);
    }
  }

  lemma OfParts(a: seq<Section>, b: seq<Section>)
    ensures Rules(a + b) == Rules(a) + Rules(b) && Others(a + b) == Others(a) + Others(b)
  {
    RulesOfParts(a, b);
    OthersOfParts(a, b);
  }

  lemma OfOne(s: Section)
    ensures Rules([s]) == if s.rule.Some? then [s.rule.value] else []
    ensures Others([s]) == if s.rule.None? then [s] else []
  {
    assert [s][1..] == [];
  }

  /** The rule at a place in the file is at the place in the list that counts
      the rules before it. */
  lemma RuleAt(file: seq<Section>, i: nat)
    requires i < |file| && file[i].rule.Some?
    ensures Rules(file) == Rules(file[..i]) + [file[i].rule.value] + Rules(file[i + 1..])
    ensures Others(file) == Others(file[..i]) + Others(file[i + 1..])
  {
    hide Rules, Others;
    assert file == file[..i] + [file[i]] + file[i + 1..];
    OfParts(file[..i] + [file[i]], file[i + 1..]);
    OfParts(file[..i], [file[i]]);
    OfOne(file[i]);
  }

  lemma {:induction false} RuleHasSection(file: seq<Section>, id: string)
    requires WellNamed(file)
    ensures RuleIndex(Rules(file), id) >= 0 ==> var i := SectionPosition(file, id);
      i >= 0 && file[i].rule.Some? && RuleIndex(Rules(file), id) == |Rules(file[..i])|
  {
    if file != [] {
      TailWellNamed(file);
      RuleHasSection(file[1..], id);
      OfOne(file[0]);
      IndexBehind(file, id);
      hide WellNamed, Rules, RuleIndex;
      var at := RuleIndex(Rules(file), id);
      if at >= 0 && file[0].id != id {
        RulesUpTo(file, SectionPosition(file[1..], id));
      } else if at >= 0 {
        NotTwice(file);
        NoSections(file);
      }
    }
  }

  lemma RulesUpTo(file: seq<Section>, i: nat)
    requires i < |file|
    ensures i < |file| - 1 ==> Rules(file[..i + 1]) == Rules([file[0]]) + Rules(file[1..][..i])
  {
    hide Rules, Others;
    if i < |file| - 1 {
      assert file[..i + 1] == [file[0]] + file[1..][..i];
      OfParts([file[0]], file[1..][..i]);
    }
  }

  /** No other section has the name of the first. */
  lemma NotTwice(file: seq<Section>)
    requires WellNamed(file) && file != []
    ensures SectionPosition(file[1..], file[0].id) == -1
  {
    hide SectionPosition;
    forall k | 0 <= k < |file| - 1 ensures file[1..][k].id != file[0].id {
      assert file[1..][k] == file[k + 1];
    }
  }

  lemma NoSections(file: seq<Section>)
    ensures Rules(file[..0]) == []
  {
  }

  /** Behind another section the place in the list is one more if that is a rule. */
  lemma IndexBehind(file: seq<Section>, id: string)
    requires WellNamed(file) && file != []
    ensures file[0].id != id && RuleIndex(Rules(file), id) >= 0 ==>
      RuleIndex(Rules(file[1..]), id) >= 0
      && RuleIndex(Rules(file), id) == RuleIndex(Rules(file[1..]), id) + if file[0].rule.Some? then 1 else 0
    ensures file[0].id == id && RuleIndex(Rules(file), id) >= 0 ==>
      if file[0].rule.Some? then RuleIndex(Rules(file), id) == 0 else RuleIndex(Rules(file[1..]), id) >= 0
  {
    var rest := Rules(file[1..]);
    if file[0].rule.Some? {
      assert Rules(file)[1..] == rest;
    } else {
      assert Rules(file) == rest;
    }
  }

  lemma TailWellNamed(file: seq<Section>)
    requires WellNamed(file) && file != []
    ensures WellNamed(file[1..])
  {
    var tail := file[1..];
    forall i, j | 0 <= i < j < |tail| ensures tail[i].id != tail[j].id {
      assert file[i + 1].id != file[j + 1].id;
    }
  }

  /** A rule's section taken out of the file takes the rule out of the list. */
  lemma OneOut(file: seq<Section>, from: nat)
    requires from < |file| && file[from].rule.Some?
    ensures |Rules(file[..from])| < |Rules(file)| && Rules(file)[|Rules(file[..from])|] == file[from].rule.value
    ensures Rules(file[..from] + file[from + 1..]) == Without(Rules(file), |Rules(file[..from])|)
    ensures |Rules(file[..from] + file[from + 1..])| == |Rules(file)| - 1
    ensures Others(file[..from] + file[from + 1..]) == Others(file)
  {
    hide Rules, Others;
    RuleAt(file, from);
    OfParts(file[..from], file[from + 1..]);
  }

  // ---- Where a moved rule goes ----

  /** The place in the file for a rule that is to land in front of the rule of
      the section `before`, or last when there is none. */
  function PlaceFor(file: seq<Section>, before: string, land: nat, at: nat): int {
    if before == "" then 65536
    else SectionPosition(file, before) - if land >= at then 1 else 0
  }

  /** Where it lands among the other rules. */
  function LandFor(rules: seq<Rule>, at: nat, before: string): int
    requires at < |rules|
  {
    if before == "" then |rules| - 1
    else var bt := RuleIndex(rules, before); if bt > at then bt - 1 else bt
  }

  /** The sections of the file that the section `id` leaves behind. */
  function LeftBehind(file: seq<Section>, id: string): (rest: seq<Section>)
    ensures |rest| <= |file|
  {
    var from := SectionPosition(file, id);
    if from < 0 then file else file[..from] + file[from + 1..]
  }

  /** No other rule stands past the place that is written for the end. */
  predicate EndIsLast(file: seq<Section>, id: string) {
    |LeftBehind(file, id)| <= 65536 || Rules(LeftBehind(file, id)[65536..]) == []
  }

  /** Where the router puts a rule among the others. */
  function LandsAt(file: seq<Section>, id: string, before: string): nat
    requires RuleIndex(Rules(file), id) >= 0 && before != id
    requires before != "" ==> RuleIndex(Rules(file), before) >= 0
  {
    if before == "" && |LeftBehind(file, id)| > 65536 then |Rules(LeftBehind(file, id)[..65536])|
    else NotNegative(LandFor(Rules(file), RuleIndex(Rules(file), id), before))
  }

  function NotNegative(i: int): nat { if i < 0 then 0 else i }

  /** The other rules and the other sections stay in their order, and the moved
      rule stands where the move says, in front of another or last; last, exactly
      unless a file of more than 65536 others has rules past that many. */
  lemma MoveLands(file: seq<Section>, id: string, before: string)
    requires WellNamed(file)
    requires RuleIndex(Rules(file), id) >= 0 && before != id
    requires before != "" ==> RuleIndex(Rules(file), before) >= 0
    ensures var at := RuleIndex(Rules(file), id); var land := LandFor(Rules(file), at, before);
      var from := SectionPosition(file, id); var place := PlaceFor(file, before, land, at);
      0 <= land <= |Rules(file)| - 1 && from >= 0 && place >= 0 && LandsAt(file, id, before) <= |Rules(file)| - 1
      && Rules(Reordered(file, from, place)) == Inserted(Without(Rules(file), at), LandsAt(file, id, before), Rules(file)[at])
      && Others(Reordered(file, from, place)) == Others(file)
      && WellNamed(Reordered(file, from, place))
      && (LandsAt(file, id, before) == land <==> before != "" || EndIsLast(file, id))
  {
    hide WellNamed, Rules, Others, SectionPosition, RuleIndex, Without, Inserted;
    RuleHasSection(file, id);
    RuleHasSection(file, before);
    var rules := Rules(file);
    var at, from := RuleIndex(rules, id), SectionPosition(file, id);
    var land := LandFor(rules, at, before);
    var place := PlaceFor(file, before, land, at);
    OneOut(file, from);
    var rest := file[..from] + file[from + 1..];
    var to := if place > |rest| then |rest| else place;
    if before == "" {
      assert rest == rest[..to] + rest[to..];
      OfParts(rest[..to], rest[to..]);
      if |rest| <= 65536 {
        assert rest[..to] == rest;
      }
    } else {
      BeforeTheOther(file, from, SectionPosition(file, before));
    }
    PutAt(rest, to, file[from]);
    ReorderedNames(file, from, place);
  }

  // ---- A file on which the end is not the end ----

  function Filler(n: nat): seq<Section> { seq(n, i requires i >= 0 => Section(seq(i + 1, _ => 'x'), None)) }

  function AnyRule(id: string): Rule { Rule(id, true, "lan", "wan", ["tcp"], "", Accept, "", [], false) }

  /** Two rules with so many other sections between them. */
  function LongFile(n: nat): seq<Section> {
    [Section("a", Some(AnyRule("a")))] + Filler(n) + [Section("b", Some(AnyRule("b")))]
  }

  lemma {:induction false} NoRules(file: seq<Section>)
    requires forall i :: 0 <= i < |file| ==> file[i].rule.None?
    ensures Rules(file) == []
  {
    if file != [] {
      NoRules(file[1..]);
    }
  }

  lemma LongIsWellNamed(n: nat)
    ensures WellNamed(LongFile(n))
  {
    KnownSpelled();
    var file := LongFile(n);
    assert forall i :: 0 < i <= n ==> file[i] == Filler(n)[i - 1] && |file[i].id| == i && file[i].id[0] == 'x';
    forall i, j | 0 <= i < j < |file| ensures file[i].id != file[j].id {
      if 0 < i && j <= n {
        assert |file[i].id| != |file[j].id|;
      } else if j <= n {
        assert file[i].id[0] != file[j].id[0];
      } else {
        assert file[i].id[0] != file[j].id[0];
      }
    }
  }

  lemma RulesOfThree(x: seq<Section>, y: seq<Section>, z: seq<Section>)
    ensures Rules(x + y + z) == Rules(x) + Rules(y) + Rules(z)
  {
    hide Rules, Others;
    OfParts(x + y, z);
    OfParts(x, y);
  }

  lemma TwoAmongOthers(a: Section, middle: seq<Section>, b: Section)
    requires a.rule.Some? && b.rule.Some? && forall i :: 0 <= i < |middle| ==> middle[i].rule.None?
    ensures Rules([a] + middle + [b]) == [a.rule.value, b.rule.value]
  {
    hide Rules, Others;
    var x, z := [a], [b];
    NoRules(middle);
    OfOne(a);
    OfOne(b);
    RulesOfThree(x, middle, z);
  }

  lemma WithoutFirst(a: Section, rest: seq<Section>)
    ensures LeftBehind([a] + rest, a.id) == rest
  {
    assert ([a] + rest)[0] == a && ([a] + rest)[..0] == [] && ([a] + rest)[1..] == rest;
  }

  lemma LongRules(n: nat)
    ensures Rules(LongFile(n)) == [AnyRule("a"), AnyRule("b")]
    ensures LeftBehind(LongFile(n), "a") == Filler(n) + [Section("b", Some(AnyRule("b")))]
  {
    hide Rules, LeftBehind, AnyRule;
    var a, b := Section("a", Some(AnyRule("a"))), Section("b", Some(AnyRule("b")));
    TwoAmongOthers(a, Filler(n), b);
    WithoutFirst(a, Filler(n) + [b]);
    assert [a] + (Filler(n) + [b]) == LongFile(n);
  }

  lemma FirstOfTwo(rules: seq<Rule>)
    requires |rules| == 2 && rules[0].id == "a"
    ensures RuleIndex(rules, "a") == 0 && LandFor(rules, 0, "") == 1
  {
  }

  /** With 65536 sections or more between the two, the first rule moved to the end
      lands in front of the second. */
  lemma EndIsNotTheEnd(n: nat)
    requires n >= 65536
    ensures var file := LongFile(n);
      WellNamed(file) && RuleIndex(Rules(file), "a") == 0 && !EndIsLast(file, "a")
      && LandFor(Rules(file), 0, "") == 1 && LandsAt(file, "a", "") == 0
  {
    var b := Section("b", Some(AnyRule("b")));
    LongIsWellNamed(n);
    LongRules(n);
    FirstOfTwo(Rules(LongFile(n)));
    hide WellNamed, LongFile, Rules, RuleIndex, AnyRule;
    var rest := LeftBehind(LongFile(n), "a");
    assert rest[..65536] == Filler(n)[..65536] && rest[65536..] == Filler(n)[65536..] + [b];
    NoRules(Filler(n)[..65536]);
    NoRules(Filler(n)[65536..]);
    OfParts(Filler(n)[65536..], [b]);
    OfOne(b);
  }

  /** With one rule out, the rules in front of another are one fewer exactly
      when the one out was among them. */
  lemma BeforeTheOther(file: seq<Section>, from: nat, bf: nat)
    requires from < |file| && bf < |file| && from != bf && file[from].rule.Some? && file[bf].rule.Some?
    ensures var rest := file[..from] + file[from + 1..];
      if bf > from then |Rules(rest[..bf - 1])| == |Rules(file[..bf])| - 1 && |Rules(file[..bf])| > |Rules(file[..from])|
      else rest[..bf] == file[..bf] && |Rules(file[..bf])| < |Rules(file[..from])|
  {
    hide Rules, Others;
    if bf > from {
      BehindBoth(file, from, bf);
    } else {
      BehindBoth(file, bf, from);
    }
  }

  /** The rules before two places, one after the other. */
  lemma BehindBoth(file: seq<Section>, i: nat, j: nat)
    requires i < j < |file| && file[i].rule.Some?
    ensures |Rules(file[..j])| == |Rules(file[..i])| + 1 + |Rules(file[i + 1..j])|
    ensures Rules((file[..i] + file[i + 1..])[..j - 1]) == Rules(file[..i]) + Rules(file[i + 1..j])
  {
    hide Rules, Others;
    assert file[..j] == file[..i] + [file[i]] + file[i + 1..j];
    OfParts(file[..i] + [file[i]], file[i + 1..j]);
    OfParts(file[..i], [file[i]]);
    OfOne(file[i]);
    assert (file[..i] + file[i + 1..])[..j - 1] == file[..i] + file[i + 1..j];
    OfParts(file[..i], file[i + 1..j]);
  }

  /** A rule put into a file at a place is in the list behind the rules before
      that place. */
  lemma PutAt(rest: seq<Section>, to: nat, s: Section)
    requires to <= |rest| && s.rule.Some?
    ensures |Rules(rest[..to])| <= |Rules(rest)|
    ensures Rules(rest[..to] + [s] + rest[to..]) == Inserted(Rules(rest), |Rules(rest[..to])|, s.rule.value)
    ensures Others(rest[..to] + [s] + rest[to..]) == Others(rest)
  {
    hide Rules, Others;
    assert rest == rest[..to] + rest[to..];
    OfParts(rest[..to], rest[to..]);
    OfParts(rest[..to] + [s], rest[to..]);
    OfParts(rest[..to], [s]);
    OfOne(s);
  }

  lemma ReorderedNames(file: seq<Section>, from: nat, place: int)
    requires WellNamed(file) && from < |file| && place >= 0
    ensures WellNamed(Reordered(file, from, place))
  {
    var rest := file[..from] + file[from + 1..];
    var to := if place > |rest| then |rest| else place;
    var after := Reordered(file, from, place);
    forall i | 0 <= i < |after| ensures after[i] == file[Was(file, from, to, i)] {
    }
    hide Reordered;
    forall i, j | 0 <= i < j < |after| ensures after[i].id != after[j].id {
      Apart(file, from, to, i, j);
      var a, b := Was(file, from, to, i), Was(file, from, to, j);
      if a < b {
        assert file[a].id != file[b].id;
      } else {
        assert file[b].id != file[a].id;
      }
    }
  }

  lemma Apart(file: seq<Section>, from: nat, to: nat, i: nat, j: nat)
    requires from < |file| && to < |file| && i < |file| && j < |file| && i != j
    ensures Was(file, from, to, i) != Was(file, from, to, j)
  {
  }

  /** Where a section of the new file was in the old one. */
  function Was(file: seq<Section>, from: nat, to: nat, i: nat): (k: nat)
    requires from < |file| && to < |file| && i < |file|
    ensures k < |file| && (k == from <==> i == to)
  {
    if i == to then from
    else var j := if i > to then i - 1 else i; if j < from then j else j + 1
  }

  lemma LandsInFront(rules: seq<Rule>, at: nat, before: string)
    requires at < |rules| && (before != "" ==> RuleIndex(rules, before) >= 0 && RuleIndex(rules, before) != at)
    ensures var land := LandFor(rules, at, before); var after := Inserted(Without(rules, at), land, rules[at]);
      0 <= land < |after| == |rules| && after[land] == rules[at] && StandsBefore(after, land, before)
      && (land == at ==> after == rules) && |Without(rules, at)| == |rules| - 1
  {
  }

  // ---- Staging ----

  datatype Refusal = NoSuchRule | SystemRule | Itself | BadRequest | Shadowed(cover: nat)

  /** `from` and `to` are places in the list of rules, counted from one. */
  datatype Outcome = Refused(why: Refusal) | AlreadyThere | Moved(from: nat, to: nat) | Added(to: nat) | Failed

  /** Putting the rule at `land` among the others would not change what happens
      to any packet. */
  ghost predicate NoDifference(others: seq<Rule>, land: nat, r: Rule)
    requires land <= |others|
  {
    forall p :: Real(p) ==>
      Verdict(Inserted(others, land, r), p) == Verdict(others, p)
      && Verdict(LaidOut(Inserted(others, land, r)), p) == Verdict(LaidOut(others), p)
  }

  /** The rule already stands in front of `before`, or last. */
  predicate StandsThere(rules: seq<Rule>, id: string, before: string) {
    var at := RuleIndex(rules, id);
    at >= 0 && if before == "" then at == |rules| - 1 else RuleIndex(rules, before) == at + 1
  }

  /** The rules a rule will have in front of it, in front of `before` or last. */
  function InFront(rules: seq<Rule>, before: string): seq<Rule> {
    if before == "" || RuleIndex(rules, before) < 0 then rules else rules[..RuleIndex(rules, before)]
  }

  /** The rule the reader is shown: the first that silences the other. */
  predicate FirstToSilence(earlier: seq<Rule>, c: Config, k: nat) {
    k < |earlier| && Silences(earlier[k], c) && forall j :: 0 <= j < k ==> !Silences(earlier[j], c)
  }

  /** Moved there, the rule would come behind one that silences it. */
  predicate MovedIntoShadow(rules: seq<Rule>, id: string, before: string) {
    var at := RuleIndex(rules, id);
    at >= 0 && AsConfig(rules[at]).Some? && IsShadowed(InFront(Without(rules, at), before), AsConfig(rules[at]).value)
  }

  /** The answer a move is due, unless something fails. */
  predicate MoveDue(rules: seq<Rule>, id: string, before: string, r: Outcome) {
    var at := RuleIndex(rules, id);
    if !IsEntry(id) || at < 0 then r == Refused(NoSuchRule)
    else if rules[at].system then r == Refused(SystemRule)
    else if before == id then r == Refused(Itself)
    else if before != "" && RuleIndex(rules, before) < 0 then r == Refused(NoSuchRule)
    else if StandsThere(rules, id, before) then r == AlreadyThere
    else if MovedIntoShadow(rules, id, before) then
      r.Refused? && r.why.Shadowed?
      && FirstToSilence(InFront(Without(rules, at), before), AsConfig(rules[at]).value, r.why.cover)
    else r.Moved?
  }

  /** A zone of this name, or every zone. */
  predicate Known(zone: string, zones: set<string>) { zone == "*" || zone in zones }

  /** The answer a new rule is due, unless something fails. */
  predicate AddDue(rules: seq<Rule>, request: Config, before: string, zones: set<string>, r: Outcome) {
    var want := Normalize(request);
    if want.None? || !Known(want.value.from, zones) || !(want.value.to == "" || Known(want.value.to, zones)) then r == Refused(BadRequest)
    else if before != "" && RuleIndex(rules, before) < 0 then r == Refused(NoSuchRule)
    else if IsShadowed(InFront(rules, before), want.value) then
      r.Refused? && r.why.Shadowed? && FirstToSilence(InFront(rules, before), want.value, r.why.cover)
    else r.Added?
  }

  lemma {:induction false} IndexWithout(rules: seq<Rule>, at: nat, before: string)
    requires at < |rules| && rules[at].id != before
    ensures var bt := RuleIndex(rules, before);
      RuleIndex(Without(rules, at), before) == if bt > at then bt - 1 else bt
  {
    if at == 0 {
      assert Without(rules, 0) == rules[1..];
    } else {
      assert Without(rules, at)[0] == rules[0] && Without(rules, at)[1..] == Without(rules[1..], at - 1);
      IndexWithout(rules[1..], at - 1, before);
    }
  }

  /** The rules in front of the place computed for a move. */
  lemma InFrontIsLand(rules: seq<Rule>, at: nat, before: string)
    requires at < |rules| && (before != "" ==> RuleIndex(rules, before) >= 0 && rules[at].id != before)
    ensures 0 <= LandFor(rules, at, before) <= |Without(rules, at)|
    ensures Without(rules, at)[..LandFor(rules, at, before)] == InFront(Without(rules, at), before)
  {
    if before != "" {
      IndexWithout(rules, at, before);
    }
  }

  /** One rule went from one place of the list to another, in front of `before`
      or last, and nothing else changed places. */
  predicate IsMove(was: seq<Section>, file: seq<Section>, id: string, before: string, from: nat, to: nat) {
    var rules, at := Rules(was), RuleIndex(Rules(was), id);
    at >= 0 && from == at + 1 && 1 <= to <= |rules| && to != from
    && Rules(file) == Inserted(Without(rules, at), to - 1, rules[at])
    && Others(file) == Others(was)
    && StandsBefore(Rules(file), to - 1, before)
  }

  /** One rule went to another place of the list and nothing else changed places. */
  predicate IsMoved(was: seq<Section>, file: seq<Section>, id: string, before: string) {
    var rules, at := Rules(was), RuleIndex(Rules(was), id);
    at >= 0 && before != id && (before != "" ==> RuleIndex(rules, before) >= 0)
    && LandsAt(was, id, before) < |rules|
    && Rules(file) == Inserted(Without(rules, at), LandsAt(was, id, before), rules[at])
    && Others(file) == Others(was)
  }

  predicate StandsBefore(rules: seq<Rule>, at: nat, before: string) {
    if before == "" then at == |rules| - 1 else at + 1 < |rules| && rules[at + 1].id == before
  }

  /** A rule that would not have acted at its new place; for the router's own
      traffic, if what is above it is not for every zone alone. */
  ghost predicate NeedlessMove(rules: seq<Rule>, id: string, before: string) {
    var at := RuleIndex(rules, id);
    at >= 0
    && (var land := LandFor(rules, at, before);
        0 <= land < |rules| && WouldNotAct(Without(rules, at), land, rules[at]))
  }

  ghost predicate WouldNotAct(others: seq<Rule>, land: nat, r: Rule)
    requires land <= |others|
  {
    AsConfig(r).Some? && (r.from != "" || IsSilenced(others[..land], AsConfig(r).value) ==> NoDifference(others, land, r))
  }

  /** A new rule is in the list in front of `before`, or last, and nothing else
      changed places. */
  predicate IsAdded(was: seq<Section>, file: seq<Section>, request: Config, before: string, named: string, to: nat) {
    var rules := Rules(was);
    Normalize(request).Some? && 1 <= to <= |rules| + 1
    && Rules(file) == Inserted(rules, to - 1, Written(named, Normalize(request).value))
    && Others(file) == Others(was)
    && (if before == "" then to == |rules| + 1 else to <= |rules| && rules[to - 1].id == before)
  }

  ghost predicate NeedlessRule(rules: seq<Rule>, request: Config, before: string, named: string) {
    var at := if before == "" then |rules| else RuleIndex(rules, before);
    Normalize(request).Some? && 0 <= at <= |rules| && NoDifference(rules, at, Written(named, Normalize(request).value))
  }

  lemma RefusedMakesNone(others: seq<Rule>, land: nat, r: Rule, c: Config)
    requires land <= |others| && IsSilenced(others[..land], c)
    requires States(r, c) && r.from == c.from && (c.ports != "" ==> ParsePortList(c.ports).Some?)
    ensures NoDifference(others, land, r)
  {
    hide IsSilenced, States, ParsePortList, Verdict, LaidOut;
    forall p | Real(p)
      ensures Verdict(Inserted(others, land, r), p) == Verdict(others, p)
      ensures Verdict(LaidOut(Inserted(others, land, r)), p) == Verdict(LaidOut(others), p)
    {
      RefusedIsNoChange(others, land, r, c, p);
    }
  }

  /** A rule with a zone is silenced whenever it is shadowed. */
  lemma ShadowedIsSilenced(earlier: seq<Rule>, c: Config)
    requires IsShadowed(earlier, c) && c.from != ""
    ensures IsSilenced(earlier, c)
  {
    hide Silences;
  }

  lemma ConfigOf(r: Rule)
    requires AsConfig(r).Some?
    ensures AsConfig(r).value.from == r.from
    ensures AsConfig(r).value.ports != "" ==> ParsePortList(AsConfig(r).value.ports).Some?
  {
    hide ParsePortList, RuleProtocols;
    if r.ports != "" {
      SpellingKeepsPorts(r.ports);
    }
  }

  lemma NormalFacts(c: Config)
    requires Normal(c)
    ensures c.ports != "" ==> ParsePortList(c.ports).Some?
    ensures c.protocols == ["all"] || forall w :: w in c.protocols ==> w in KNOWN
  {
    hide ParsePortList;
  }

  lemma NewAtTheEnd(file: seq<Section>, s: Section)
    requires WellNamed(file) && s.rule.Some? && IsRead(s) && forall k :: 0 <= k < |file| ==> file[k].id != s.id
    ensures WellNamed(file + [s]) && Rules(file + [s]) == Rules(file) + [s.rule.value] && Others(file + [s]) == Others(file)
  {
    hide Rules, Others;
    OfParts(file, [s]);
    OfOne(s);
  }

  /** A rule added last and then put where another one stands. */
  lemma NewLands(file: seq<Section>, s: Section, before: string)
    requires WellNamed(file) && RuleIndex(Rules(file), before) >= 0
    requires s.rule.Some? && IsRead(s) && forall k :: 0 <= k < |file| ==> file[k].id != s.id
    ensures SectionPosition(file, before) >= 0
    ensures var after := Reordered(file + [s], |file|, SectionPosition(file, before));
      WellNamed(after) && Others(after) == Others(file)
      && Rules(after) == Inserted(Rules(file), RuleIndex(Rules(file), before), s.rule.value)
  {
    hide WellNamed, Rules, Others, SectionPosition, RuleIndex;
    RuleHasSection(file, before);
    var position := SectionPosition(file, before);
    NewAtTheEnd(file, s);
    ReorderedNames(file + [s], |file|, position);
    assert (file + [s])[..|file|] + (file + [s])[|file| + 1..] == file;
    PutAt(file, position, s);
  }

  lemma RuleIsRead(file: seq<Section>, id: string)
    requires WellNamed(file) && RuleIndex(Rules(file), id) >= 0
    ensures OneSpelling(Rules(file)[RuleIndex(Rules(file), id)].protocols)
  {
    RuleHasSection(file, id);
    OneOut(file, SectionPosition(file, id));
    hide Rules, RuleIndex, OneSpelling;
    assert IsRead(file[SectionPosition(file, id)]);
  }

  lemma StandsWhereItLands(rules: seq<Rule>, id: string, before: string)
    requires RuleIndex(rules, id) >= 0 && (before != "" ==> RuleIndex(rules, before) >= 0 && RuleIndex(rules, before) != RuleIndex(rules, id))
    ensures LandFor(rules, RuleIndex(rules, id), before) == RuleIndex(rules, id) <==> StandsThere(rules, id, before)
  {
  }

  /** What the router makes of the place computed for a move. */
  lemma ReorderedIsMove(file: seq<Section>, id: string, before: string)
    requires WellNamed(file) && RuleIndex(Rules(file), id) >= 0 && before != id
    requires before != "" ==> RuleIndex(Rules(file), before) >= 0 && RuleIndex(Rules(file), before) != RuleIndex(Rules(file), id)
    ensures var at := RuleIndex(Rules(file), id); var land := LandFor(Rules(file), at, before);
      var from := SectionPosition(file, id); var place := PlaceFor(file, before, land, at);
      0 <= land < |Rules(file)| && from >= 0 && place >= 0 && |Without(Rules(file), at)| == |Rules(file)| - 1
      && WellNamed(Reordered(file, from, place)) && OneSpelling(Rules(file)[at].protocols)
      && Others(Reordered(file, from, place)) == Others(file)
      && IsMoved(file, Reordered(file, from, place), id, before)
      && (land == at <==> StandsThere(Rules(file), id, before))
      && (land != at && (before != "" || EndIsLast(file, id)) ==>
          IsMove(file, Reordered(file, from, place), id, before, at + 1, land + 1))
  {
    hide WellNamed, Rules, Others, SectionPosition, RuleIndex, LandFor, PlaceFor, Reordered, EndIsLast, LandsAt, OneSpelling;
    RuleIsRead(file, id);
    LandsInFront(Rules(file), RuleIndex(Rules(file), id), before);
    StandsWhereItLands(Rules(file), id, before);
    MoveLands(file, id, before);
  }

  /** The firewall file: what is saved and what is staged. Every command to the
      router may fail, and so may taking the draft back afterwards. */
  class Firewall {
    var saved: seq<Section>
    var file: seq<Section>
    /** How often the router has failed to do what it was asked. */
    ghost var faults: nat

    ghost predicate Valid()
      reads this
    {
      WellNamed(file) && WellNamed(saved)
    }

    /** A command that only asks. */
    method Ask() returns (ok: bool)
      modifies `faults
      ensures faults == if ok then old(faults) else old(faults) + 1
    {
      ok := *;
      if !ok {
        faults := faults + 1;
      }
    }

    method Reorder(from: nat, place: nat) returns (ok: bool)
      requires from < |file|
      modifies `file, `faults
      ensures file == if ok then Reordered(old(file), from, place) else old(file)
      ensures faults == if ok then old(faults) else old(faults) + 1
    {
      ok := Ask();
      if ok {
        file := Reordered(file, from, place);
      }
    }

    /** The whole draft of the firewall goes; failing that, it stays. */
    method Discard()
      modifies `file, `faults
      ensures file == if faults == old(faults) then saved else old(file)
      ensures faults >= old(faults)
    {
      var ok := Ask();
      if ok {
        file := saved;
      }
    }

    /** Asks whether an existing rule would still act at `land`. */
    method MoveShadowed(others: seq<Rule>, land: nat, rule: Rule) returns (cover: Option<nat>)
      requires land <= |others| && OneSpelling(rule.protocols)
      ensures cover.Some? <==> AsConfig(rule).Some? && IsShadowed(others[..land], AsConfig(rule).value)
      ensures cover.Some? ==> FirstToSilence(others[..land], AsConfig(rule).value, cover.value)
      ensures cover.Some? ==> WouldNotAct(others, land, rule)
    {
      hide AsConfig, ParsePortList, IsShadowed, IsSilenced, NoDifference, States, OneSpelling, Silences;
      cover := None;
      var want := AsConfig(rule);
      if want.Some? {
        cover := ShadowedBy(others[..land], want.value);
        if cover.Some? {
          ConfigOf(rule);
          if rule.from != "" {
            ShadowedIsSilenced(others[..land], want.value);
          }
          if IsSilenced(others[..land], want.value) {
            AsConfigStates(rule);
            RefusedMakesNone(others, land, rule, want.value);
          }
        }
      }
    }

    /** Asks whether a new rule would act at `at`. */
    method NewShadowed(rules: seq<Rule>, at: nat, want: Config, named: string) returns (cover: Option<nat>)
      requires at <= |rules| && want.from != "" && (want.ports != "" ==> ParsePortList(want.ports).Some?)
      ensures cover.Some? <==> IsShadowed(rules[..at], want)
      ensures cover.Some? ==> FirstToSilence(rules[..at], want, cover.value)
      ensures cover.Some? ==> NoDifference(rules, at, Written(named, want))
    {
      hide ParsePortList, IsShadowed, IsSilenced, NoDifference, States, Silences;
      cover := ShadowedBy(rules[..at], want);
      if cover.Some? {
        WrittenStates(named, want);
        ShadowedIsSilenced(rules[..at], want);
        RefusedMakesNone(rules, at, Written(named, want), want);
      }
    }

    /** Moves a rule in front of another, or to the end. */
    method MoveRule(id: string, inFrontOf: string) returns (r: Outcome)
      requires Valid()
      modifies `file, `faults
      ensures Valid() && !r.Added?
      ensures !r.Failed? ==> MoveDue(Rules(old(file)), id, TrimSpace(inFrontOf), r)
      ensures faults >= old(faults) && (r.Failed? <==> faults > old(faults))
      ensures r.Refused? || r.AlreadyThere? ==> file == old(file)
      ensures r.Moved? ==> IsMoved(old(file), file, id, TrimSpace(inFrontOf))
      ensures r.Moved? && (TrimSpace(inFrontOf) != "" || EndIsLast(old(file), id)) ==>
        IsMove(old(file), file, id, TrimSpace(inFrontOf), r.from, r.to)
      ensures r.Refused? && r.why.Shadowed? ==> NeedlessMove(Rules(file), id, TrimSpace(inFrontOf))
      ensures r.Failed? ==> file == old(file) || file == saved || Others(file) == Others(old(file))
      ensures r.Failed? && faults == old(faults) + 1 ==> file == old(file) || file == saved
    {
      hide WellNamed, Rules, Others, SectionPosition, RuleIndex, TrimSpace, WouldNotAct, OneSpelling, Inserted, Without, LandsAt, EndIsLast, IsMove, IsMoved, StandsThere, LandFor, PlaceFor, Reordered, InFront, AsConfig, IsShadowed, FirstToSilence;
      if !IsEntry(id) {
        return Refused(NoSuchRule);
      }
      assert id != "";
      hide IsEntry;
      var ok := Ask();
      if !ok {
        return Failed;
      }
      var rules := Rules(file);
      var at := RuleIndex(rules, id);
      if at < 0 {
        return Refused(NoSuchRule);
      }
      if rules[at].system {
        return Refused(SystemRule);
      }
      var before := TrimSpace(inFrontOf);
      if before != "" {
        if before == id {
          return Refused(Itself);
        }
        if RuleIndex(rules, before) < 0 {
          return Refused(NoSuchRule);
        }
        assert RuleIndex(rules, before) != at;
      }
      var land := LandFor(rules, at, before);
      ReorderedIsMove(file, id, before);
      if land == at {
        return AlreadyThere;
      }
      InFrontIsLand(rules, at, before);
      var cover := MoveShadowed(Without(rules, at), land, rules[at]);
      if cover.Some? {
        return Refused(Shadowed(cover.value));
      }
      if before != "" {
        ok := Ask();
        if !ok {
          return Failed;
        }
      }
      ok := Ask();
      if !ok {
        return Failed;
      }
      ok := Reorder(SectionPosition(file, id), PlaceFor(file, before, land, at));
      if ok {
        ok := Ask();
        if ok {
          return Moved(at + 1, land + 1);
        }
      }
      Discard();
      return Failed;
    }

    /** Puts a rule into the file, in front of `before` or last. `named` is the
        name the router gives the new section. */
    method PutRule(rule: Rule, before: string, named: string) returns (ok: bool)
      requires Valid() && rule.id == named && OneSpelling(rule.protocols) && forall k :: 0 <= k < |file| ==> file[k].id != named
      requires before != "" ==> RuleIndex(Rules(file), before) >= 0
      modifies `file, `faults
      ensures Valid() && faults >= old(faults) && (ok <==> faults == old(faults) && IsName(named))
      ensures ok ==> Others(file) == Others(old(file))
      ensures ok ==> Rules(file) == Inserted(Rules(old(file)), if before == "" then |Rules(old(file))| else RuleIndex(Rules(old(file)), before), rule)
      ensures !ok ==> file == old(file) || file == saved || Others(file) == Others(old(file))
      ensures !ok && faults <= old(faults) + 1 && IsName(named) ==> file == old(file) || file == saved
    {
      hide WellNamed, Rules, Others, SectionPosition, RuleIndex, IsName, OneSpelling;
      ok := Ask();
      if !ok {
        return false;
      }
      ghost var was := file;
      var half: Section := *;
      if half.id != named || !half.rule.Some? || !IsRead(half) {
        half := Section(named, Some(rule));
      }
      NewAtTheEnd(file, half);
      file := file + [half];
      ok := Ask();
      if !ok || !IsName(named) {
        Discard();
        return false;
      }
      var made := Section(named, Some(rule));
      NewAtTheEnd(was, made);
      file := file[..|file| - 1] + [made];
      assert file == was + [made];
      if before != "" {
        NewLands(was, made, before);
        ok := Reorder(|file| - 1, SectionPosition(file[..|file| - 1], before));
      }
      if ok {
        ok := Ask();
      }
      if !ok {
        Discard();
      }
    }

    /** Adds a rule, in front of another or last. */
    method AddRule(request: Config, inFrontOf: string, zones: set<string>, named: string) returns (r: Outcome)
      requires Valid() && forall k :: 0 <= k < |file| ==> file[k].id != named
      modifies `file, `faults
      ensures Valid() && !r.Moved? && !r.AlreadyThere?
      ensures !r.Failed? ==> AddDue(Rules(old(file)), request, TrimSpace(inFrontOf), zones, r)
      ensures faults >= old(faults) && (r.Failed? ==> faults > old(faults) || !IsName(named))
      ensures r.Refused? ==> file == old(file) && faults == old(faults)
      ensures r.Added? ==> IsAdded(old(file), file, request, TrimSpace(inFrontOf), named, r.to) && faults == old(faults)
      ensures r.Refused? && r.why.Shadowed? ==> NeedlessRule(Rules(file), request, TrimSpace(inFrontOf), named)
      ensures r.Failed? ==> file == old(file) || file == saved || Others(file) == Others(old(file))
      ensures r.Failed? && faults == old(faults) + 1 && IsName(named) ==> file == old(file) || file == saved
    {
      hide WellNamed, Rules, Others, RuleIndex, TrimSpace, Normalize, ParsePortList, IsShadowed, NoDifference, Normal, Inserted, IsName, FirstToSilence;
      var normal := Normalize(request);
      if normal.None? {
        return Refused(BadRequest);
      }
      var want := normal.value;
      NormalizeIsNormal(request);
      NormalFacts(want);
      var ok := Ask();
      if !ok {
        return Failed;
      }
      if (want.from != "*" && want.from !in zones) || (want.to != "" && want.to != "*" && want.to !in zones) {
        return Refused(BadRequest);
      }
      var rules := Rules(file);
      var before := TrimSpace(inFrontOf);
      var at := |rules|;
      if before != "" {
        if RuleIndex(rules, before) < 0 {
          return Refused(NoSuchRule);
        }
        at := RuleIndex(rules, before);
        ok := Ask();
        if !ok {
          return Failed;
        }
      }
      assert rules[..at] == InFront(rules, before);
      var cover := NewShadowed(rules, at, want, named);
      if cover.Some? {
        return Refused(Shadowed(cover.value));
      }
      AsksSpelled(want.protocols);
      ok := PutRule(Written(named, want), before, named);
      return if ok then Added(at + 1) else Failed;
    }
  }
}
