/** Staging a guest network: choosing for it, writing it command by command,
    and taking back what was written when a command fails
    (internal/adapters/openwrt/wifi_guest.go). */
module GuestStaging {
  import opened Outcomes
  import opened Text
  import opened Prefixes
  import opened UciSections
  import opened GuestRecipe
  import opened GuestChecks
  import opened GuestSubnet
  import opened GuestWriter
  import opened GuestAgreement
  import opened GuestFirewall
  import LanAddresses

  /** What one undo takes back: a section's draft, or the draft of the home
      network's IPv6 assignment. */
  datatype Touched = WholeSection(file: File, id: Id) | HomeAssign

  function Kept(file: seq<Section>, ids: set<Id>): seq<Section> {
    if file == [] then [] else (if file[0].id in ids then [] else [file[0]]) + Kept(file[1..], ids)
  }

  function RevertedSection(now: seq<Section>, saved: seq<Section>, id: Id): seq<Section> {
    Kept(now, {id}) + (if Find(saved, id).Some? then [Find(saved, id).value] else [])
  }

  function LanAsSaved(s: Section, saved: seq<Section>): Section {
    if s.id != Lan then s
    else
      var lan := Find(saved, Lan);
      if lan.Some? && Ip6Assign in lan.value.opts then s.(opts := s.opts[Ip6Assign := lan.value.opts[Ip6Assign]])
      else s.(opts := s.opts - {Ip6Assign})
  }

  function RevertedAssign(now: seq<Section>, saved: seq<Section>): (r: seq<Section>)
    ensures |r| == |now| && forall i :: 0 <= i < |now| ==> r[i] == LanAsSaved(now[i], saved)
  {
    if now == [] then [] else [LanAsSaved(now[0], saved)] + RevertedAssign(now[1..], saved)
  }

  function Reverted(now: Config, saved: Config, t: Touched): Config {
    match t
    case WholeSection(f, id) => now.With(f, RevertedSection(now.At(f), saved.At(f), id))
    case HomeAssign => now.(network := RevertedAssign(now.network, saved.network))
  }

  function TouchedBy(e: Edit): Touched {
    if e == Put(NetworkFile, Lan, Ip6Assign, "64") then HomeAssign else WholeSection(e.file, e.id)
  }

  function AllTouched(edits: seq<Edit>): (r: seq<Touched>)
    ensures |r| == |edits| && forall i :: 0 <= i < |edits| ==> r[i] == TouchedBy(edits[i])
  {
    if edits == [] then [] else [TouchedBy(edits[0])] + AllTouched(edits[1..])
  }

  function IdsIn(f: File, ts: seq<Touched>): set<Id> {
    set t | t in ts && t.WholeSection? && t.file == f :: t.id
  }

  /** Nothing of what the undo takes back was in the draft or on disk before. */
  predicate NothingPending(before: Config, saved: Config, ts: seq<Touched>) {
    && (forall t :: t in ts && t.WholeSection? ==> Fresh(before.At(t.file), t.id) && Fresh(saved.At(t.file), t.id))
    && (HomeAssign in ts ==> RevertedAssign(before.network, saved.network) == before.network)
  }

  /** A file without the touched sections, the home assignment as saved when
      that was touched. */
  function Rest(f: File, file: seq<Section>, saved: Config, ts: seq<Touched>): seq<Section> {
    var kept := Kept(file, IdsIn(f, ts));
    if f == NetworkFile && HomeAssign in ts then RevertedAssign(kept, saved.network) else kept
  }

  /** Outside of what was touched the files are as they were. */
  predicate Untouched(before: Config, now: Config, saved: Config, ts: seq<Touched>) {
    forall f :: Rest(f, now.At(f), saved, ts) == Rest(f, before.At(f), saved, ts)
  }

  // ---- Filtering ----

  lemma {:induction false} KeptFresh(file: seq<Section>, ids: set<Id>)
    requires forall s :: s in file ==> s.id !in ids
    ensures Kept(file, ids) == file
  {
    if file != [] {
      assert file[0] in file;
      KeptFresh(file[1..], ids);
    }
  }

  lemma {:induction false} KeptNone(file: seq<Section>, ids: set<Id>)
    ensures forall s :: s in Kept(file, ids) ==> s in file && s.id !in ids
  {
    if file != [] {
      KeptNone(file[1..], ids);
    }
  }

  lemma {:induction false} KeptTwice(file: seq<Section>, id: Id, ids: set<Id>)
    requires id in ids
    ensures Kept(Kept(file, {id}), ids) == Kept(file, ids)
  {
    if file != [] {
      KeptTwice(file[1..], id, ids);
      if file[0].id != id {
        assert Kept(file, {id})[1..] == Kept(file[1..], {id});
      } else {
        assert Kept(file, {id}) == Kept(file[1..], {id});
      }
    }
  }

  lemma {:induction false} KeptSame(a: seq<Section>, b: seq<Section>, ids: set<Id>)
    requires |a| == |b| && forall i :: 0 <= i < |a| ==> a[i].id == b[i].id && (a[i].id !in ids ==> a[i] == b[i])
    ensures Kept(a, ids) == Kept(b, ids)
  {
    if a != [] {
      assert forall i :: 0 <= i < |a[1..]| ==> a[1..][i] == a[i + 1] && b[1..][i] == b[i + 1];
      KeptSame(a[1..], b[1..], ids);
    }
  }

  lemma {:induction false} KeptOneMore(a: seq<Section>, s: Section, ids: set<Id>)
    requires s.id in ids
    ensures Kept(a + [s], ids) == Kept(a, ids)
  {
    if a == [] {
      assert [] + [s] == [s] && [s][1..] == [];
    } else {
      assert (a + [s])[1..] == a[1..] + [s];
      KeptOneMore(a[1..], s, ids);
    }
  }

  lemma EditKeeps(file: seq<Section>, e: Edit, ids: set<Id>)
    requires e.id in ids
    ensures Kept(EditedIn(file, e), ids) == Kept(file, ids)
  {
    hide Kept, Find;
    if Find(file, e.id).None? {
      if e.Make? {
        KeptOneMore(file, Section(e.id, e.kind, map[]), ids);
      }
    } else {
      KeptSame(EditedIn(file, e), file, ids);
    }
  }

  lemma {:induction false} LanKeeps(a: seq<Section>, b: seq<Section>, ids: set<Id>, saved: seq<Section>)
    requires |a| == |b| && forall i :: 0 <= i < |a| ==> a[i].id == b[i].id && LanAsSaved(a[i], saved) == LanAsSaved(b[i], saved)
    ensures RevertedAssign(Kept(a, ids), saved) == RevertedAssign(Kept(b, ids), saved)
  {
    hide LanAsSaved;
    if a != [] {
      assert forall i :: 0 <= i < |a[1..]| ==> a[1..][i] == a[i + 1] && b[1..][i] == b[i + 1];
      LanKeeps(a[1..], b[1..], ids, saved);
      if a[0].id !in ids {
        assert Kept(a, ids)[1..] == Kept(a[1..], ids) && Kept(b, ids)[1..] == Kept(b[1..], ids);
      } else {
        assert Kept(a, ids) == Kept(a[1..], ids) && Kept(b, ids) == Kept(b[1..], ids);
      }
    }
  }

  // ---- Each step ----

  /** A command changes only what it touches. */
  lemma EditUntouched(before: Config, now: Config, saved: Config, ts: seq<Touched>, e: Edit)
    requires Untouched(before, now, saved, ts) && TouchedBy(e) in ts
    ensures Untouched(before, Apply(now, e), saved, ts)
  {
    hide Kept, RevertedAssign;
    forall f ensures Rest(f, Apply(now, e).At(f), saved, ts) == Rest(f, now.At(f), saved, ts) {
      if f == e.file {
        if TouchedBy(e).HomeAssign? {
          LanEdit(now.network, e, saved.network);
          LanKeeps(EditedIn(now.network, e), now.network, IdsIn(f, ts), saved.network);
        } else {
          EditKeeps(now.At(f), e, IdsIn(f, ts));
        }
      }
    }
  }

  lemma LanEdit(network: seq<Section>, e: Edit, saved: seq<Section>)
    requires e == Put(NetworkFile, Lan, Ip6Assign, "64")
    ensures |EditedIn(network, e)| == |network|
    ensures forall i :: 0 <= i < |network| ==> EditedIn(network, e)[i].id == network[i].id
    ensures forall i :: 0 <= i < |network| ==> LanAsSaved(EditedIn(network, e)[i], saved) == LanAsSaved(network[i], saved)
  {
    hide Find;
    forall i | 0 <= i < |network| ensures LanAsSaved(EditedIn(network, e)[i], saved) == LanAsSaved(network[i], saved) {
      var s, t := network[i], EditedIn(network, e)[i];
      if s.id == Lan {
        assert t == s || t.opts == s.opts[Ip6Assign := "64"];
        assert t.opts - {Ip6Assign} == s.opts - {Ip6Assign};
      }
    }
  }

  lemma RevertUntouched(before: Config, now: Config, saved: Config, ts: seq<Touched>, t: Touched)
    requires Untouched(before, now, saved, ts) && NothingPending(before, saved, ts) && t in ts
    ensures Untouched(before, Reverted(now, saved, t), saved, ts)
  {
    hide Kept, RevertedAssign, Find;
    forall f ensures Rest(f, Reverted(now, saved, t).At(f), saved, ts) == Rest(f, now.At(f), saved, ts) {
      if t.HomeAssign? {
        if f == NetworkFile {
          AssignTwice(now.network, saved.network);
          LanKeeps(RevertedAssign(now.network, saved.network), now.network, IdsIn(f, ts), saved.network);
        }
      } else if f == t.file {
        FindFresh(saved.At(f), t.id);
        assert RevertedSection(now.At(f), saved.At(f), t.id) == Kept(now.At(f), {t.id});
        KeptTwice(now.At(f), t.id, IdsIn(f, ts));
      }
    }
  }

  lemma AssignTwice(network: seq<Section>, saved: seq<Section>)
    ensures forall i :: 0 <= i < |network| ==> RevertedAssign(network, saved)[i].id == network[i].id
    ensures forall i :: 0 <= i < |network| ==> LanAsSaved(RevertedAssign(network, saved)[i], saved) == LanAsSaved(network[i], saved)
  {
    hide Find;
    forall i | 0 <= i < |network| ensures LanAsSaved(LanAsSaved(network[i], saved), saved) == LanAsSaved(network[i], saved) {
      var s := network[i];
      assert s.opts - {Ip6Assign} - {Ip6Assign} == s.opts - {Ip6Assign};
    }
  }

  // ---- Undone ----

  /** This much has been taken back. */
  predicate TakenBack(now: Config, saved: Config, t: Touched) {
    if t.HomeAssign? then forall s :: s in now.network ==> LanAsSaved(s, saved.network) == s
    else Fresh(now.At(t.file), t.id)
  }

  lemma RevertTakesBack(now: Config, saved: Config, t: Touched)
    requires t.WholeSection? ==> Fresh(saved.At(t.file), t.id)
    ensures TakenBack(Reverted(now, saved, t), saved, t)
  {
    hide Find;
    if t.WholeSection? {
      FindFresh(saved.At(t.file), t.id);
      KeptNone(now.At(t.file), {t.id});
    } else {
      var r := RevertedAssign(now.network, saved.network);
      AssignTwice(now.network, saved.network);
      forall s | s in r ensures LanAsSaved(s, saved.network) == s {
        var i :| 0 <= i < |r| && r[i] == s;
      }
    }
  }

  lemma StaysTakenBack(now: Config, saved: Config, t: Touched, u: Touched)
    requires TakenBack(now, saved, u) && (t.WholeSection? ==> Fresh(saved.At(t.file), t.id))
    ensures TakenBack(Reverted(now, saved, t), saved, u)
  {
    hide Find;
    if t.WholeSection? {
      FindFresh(saved.At(t.file), t.id);
      KeptNone(now.At(t.file), {t.id});
    } else {
      AssignTwice(now.network, saved.network);
      var r := RevertedAssign(now.network, saved.network);
      if u.HomeAssign? {
        forall s | s in r ensures LanAsSaved(s, saved.network) == s {
          var i :| 0 <= i < |r| && r[i] == s;
        }
      } else if u.file == NetworkFile {
        forall s | s in r ensures s.id != u.id {
          var i :| 0 <= i < |r| && r[i] == s;
          assert now.network[i] in now.network;
        }
      }
    }
  }

  lemma AssignFixed(network: seq<Section>, saved: seq<Section>)
    requires forall s :: s in network ==> LanAsSaved(s, saved) == s
    ensures RevertedAssign(network, saved) == network
  {
    hide LanAsSaved;
  }

  lemma AllTakenBack(before: Config, now: Config, saved: Config, ts: seq<Touched>)
    requires NothingPending(before, saved, ts) && Untouched(before, now, saved, ts)
    requires forall t :: t in ts ==> TakenBack(now, saved, t)
    ensures now == before
  {
    hide Kept, RevertedAssign, LanAsSaved;
    forall f ensures now.At(f) == before.At(f) {
      assert Rest(f, now.At(f), saved, ts) == Rest(f, before.At(f), saved, ts);
      var ids := IdsIn(f, ts);
      forall s | s in now.At(f) ensures s.id !in ids {
        assert s.id in ids ==> WholeSection(f, s.id) in ts;
      }
      forall s | s in before.At(f) ensures s.id !in ids {
        assert s.id in ids ==> WholeSection(f, s.id) in ts;
      }
      KeptFresh(now.At(f), ids);
      KeptFresh(before.At(f), ids);
      if f == NetworkFile && HomeAssign in ts {
        assert TakenBack(now, saved, HomeAssign);
        AssignFixed(now.network, saved.network);
      }
    }
    assert now.At(NetworkFile) == before.At(NetworkFile) && now.At(WirelessFile) == before.At(WirelessFile);
    assert now.At(DhcpFile) == before.At(DhcpFile) && now.At(FirewallFile) == before.At(FirewallFile);
  }

  // ---- The draft ----

  datatype Outcome = AlreadyThere | NoRadio | Unreadable | Blocked(why: GuestChecks.Blocked) | NoNetwork
                   | Failed(undone: bool) | Staged(subnet: Net, renumber: bool, radios: seq<string>)

  /** The files as staged and as saved. Every command may fail. */
  class Draft {
    var now: Config
    var saved: Config
    /** How many commands have failed. */
    ghost var faults: nat

    method Run(e: Edit) returns (ok: bool)
      modifies `now, `faults
      ensures now == if ok then Apply(old(now), e) else old(now)
      ensures faults == if ok then old(faults) else old(faults) + 1
    {
      ok := *;
      if ok {
        now := Apply(now, e);
      } else {
        faults := faults + 1;
      }
    }

    method Revert(t: Touched) returns (ok: bool)
      modifies `now, `faults
      ensures now == if ok then Reverted(old(now), saved, t) else old(now)
      ensures faults == if ok then old(faults) else old(faults) + 1
    {
      ok := *;
      if ok {
        now := Reverted(now, saved, t);
      } else {
        faults := faults + 1;
      }
    }

    /** Takes back everything touched, each thing once, whatever fails on the
        way; says whether all of it worked. */
    method Discard(touched: seq<Touched>, ghost before: Config) returns (all: bool)
      modifies `now, `faults
      ensures faults >= old(faults) && (all <==> faults == old(faults))
      ensures all && old(NothingPending(before, saved, touched) && Untouched(before, now, saved, touched)) ==> now == before
    {
      hide NothingPending, Untouched, TakenBack, Reverted;
      all := true;
      var seen: set<Touched> := {};
      ghost var clean := NothingPending(before, saved, touched) && Untouched(before, now, saved, touched);
      for k := 0 to |touched|
        invariant seen == set t | t in touched[..k]
        invariant faults >= old(faults) && (all <==> faults == old(faults))
        invariant clean ==> NothingPending(before, saved, touched) && Untouched(before, now, saved, touched)
        invariant clean && all ==> forall t :: t in seen ==> TakenBack(now, saved, t)
      {
        var t := touched[k];
        assert touched[..k + 1] == touched[..k] + [t];
        if t !in seen {
          seen := seen + {t};
          ghost var was := now;
          var ok := Revert(t);
          if !ok {
            all := false;
          } else if clean {
            RevertStep(before, was, saved, touched, t, seen - {t}, all);
          }
        }
      }
      assert touched[..|touched|] == touched;
      if clean && all {
        AllTakenBack(before, now, saved, touched);
      }
    }

    /** Runs the commands in order; on the first that fails, takes back
        everything the edit would have touched. */
    method Write(edits: seq<Edit>) returns (ok: bool, undone: bool)
      modifies `now, `faults
      ensures faults >= old(faults) && (ok <==> faults == old(faults)) && (undone <==> faults == old(faults) + 1)
      ensures ok ==> now == ApplyAll(old(now), edits)
      ensures !ok && undone && old(NothingPending(now, saved, AllTouched(edits))) ==> now == old(now)
    {
      hide NothingPending, Untouched, Apply, Reverted;
      ghost var before := now;
      var touched := AllTouched(edits);
      assert Untouched(before, now, saved, touched) by { SameUntouched(before, saved, touched); }
      for k := 0 to |edits|
        invariant ApplyAll(now, edits[k..]) == ApplyAll(before, edits)
        invariant Untouched(before, now, saved, touched) && faults == old(faults)
      {
        ghost var was := now;
        var done := Run(edits[k]);
        if !done {
          undone := Discard(touched, before);
          return false, undone;
        }
        assert edits[k..][1..] == edits[k + 1..];
        assert touched[k] in touched;
        EditUntouched(before, was, saved, touched, edits[k]);
      }
      return true, false;
    }

    /** Stages a new guest network on the given radios, or on every one it can
        be on when none are given. `text` writes an address, `kernel` are the
        routes the kernel has, and `ifaces` is nothing when they could not be
        read. */
    method StageGuest(q: Request, lib: Library, text: nat -> string, ifaces: Option<seq<Live>>, kernel: seq<Net>)
      returns (r: Outcome)
      requires UniqueNames(now.wireless)
      requires forall a: nat :: a < Pow2(32) ==> ReadsAddress(lib, text(a), a)
      modifies `now, `faults
      ensures !r.Failed? ==> IsDue(old(now), q, lib, ifaces, kernel, r)
      ensures faults >= old(faults) && (r.Failed? <==> faults > old(faults))
      ensures r.Failed? ==> (r.undone <==> faults == old(faults) + 1)
      ensures !r.Failed? && !r.Staged? ==> now == old(now)
      ensures r.Failed? && r.undone && NothingThere(saved) && AssignIsSaved(old(now).network, saved.network) ==> now == old(now)
      ensures r.Staged? ==> ifaces.Some? && IsStaged(old(now), now, q, lib, text, ifaces.value, kernel, r.subnet, r.renumber, r.radios)
    {
      hide UniqueNames, Choosable, Renumbers, ReadsAddress, Pow2, Ready, GuestBlocker, GuestEdits, NothingThere, NothingPending, AssignIsSaved, Apply, ApplyAll, WithGuests, Clear, Prefix.Aligned, ZoneSubnets, ConfiguredPrefixes, Find, State.Shape, GuestShape, RadioUsable, Distinct, Room, Plain, Others, Capacity, Exact;
      var live := if ifaces.Some? then ifaces.value else [];
      var st := StateOf(now, live, lib);
      var g := ReadGuestShape(now.network, now.firewall, now.wireless, now.dhcp);
      ShapeRead(st);
      if g.ours || g.foreign {
        return AlreadyThere;
      }
      var radios := ChooseRadios(now.wireless, q.radios);
      if radios.None? {
        return NoRadio;
      }
      if ifaces.None? {
        return Unreadable;
      }
      var why := GuestBlocker(st);
      if why.Some? {
        return Blocked(why.value);
      }
      ShapeIs(st, g);
      var taken := Occupied(st, kernel);
      var subnet := FreeGuestSubnet(live, taken);
      if subnet.None? {
        return NoNetwork;
      }
      CandidateFits(subnet.value);
      var _, renumber := GuestIPv6(lib, now.network, Delegated(live));
      LanIsThere(now.network, renumber);
      var wanted := q.(radios := radios.value);
      ReadyIsEmpty(st);
      EditsMakeGuests(now, text(subnet.value.addr + 1), UplinkZone(st), renumber, wanted);
      var edits := GuestEdits(text(subnet.value.addr + 1), UplinkZone(st), renumber, wanted);
      if NothingThere(saved) && AssignIsSaved(now.network, saved.network) {
        GuestsPending(now, saved, text(subnet.value.addr + 1), UplinkZone(st), renumber, wanted);
      }
      var ok, undone := Write(edits);
      if !ok {
        return Failed(undone);
      }
      return Staged(subnet.value, renumber, radios.value);
    }
  }

  function StateOf(c: Config, ifaces: seq<Live>, lib: Library): State {
    State(c.network, c.firewall, c.wireless, c.dhcp, ifaces, lib)
  }

  /** What counts as taken beside the live interfaces: the kernel's routes, the
      zones' ranges and the networks configured but not up. */
  function Occupied(st: State, kernel: seq<Net>): seq<Net> {
    kernel + ZoneSubnets(st.lib, st.firewall) + ConfiguredPrefixes(st.lib, st.network)
  }

  function Delegated(ifaces: seq<Live>): seq<int> {
    if ifaces == [] then [] else ifaces[0].delegated + Delegated(ifaces[1..])
  }

  predicate AssignIsSaved(network: seq<Section>, saved: seq<Section>) {
    forall s :: s in network ==> LanAsSaved(s, saved) == s
  }

  /** The answer a request is due, unless a command fails. */
  ghost predicate IsDue(was: Config, q: Request, lib: Library, ifaces: Option<seq<Live>>, kernel: seq<Net>, r: Outcome) {
    var st := StateOf(was, if ifaces.Some? then ifaces.value else [], lib);
    if st.Shape().ours || st.Shape().foreign then r == AlreadyThere
    else if !Choosable(was.wireless, q.radios) then r == NoRadio
    else if ifaces.None? then r == Unreadable
    else if GuestBlocker(st).Some? then r == Blocked(GuestBlocker(st).value)
    else if forall k: nat :: k < 504 ==> !Clear(Candidate(k), ifaces.value, Occupied(st, kernel)) then r == NoNetwork
    else r.Staged?
  }

  /** What a staged guest network is: made where one could be made, on usable
      radios, in a network that overlaps nothing, exactly the recipe added to
      the files. */
  ghost predicate IsStaged(was: Config, now: Config, q: Request, lib: Library, text: nat -> string, ifaces: seq<Live>, kernel: seq<Net>,
                     subnet: Net, renumber: bool, radios: seq<string>)
  {
    var st := StateOf(was, ifaces, lib);
    Ready(st) && Chosen(was.wireless, q.radios, radios)
    && subnet.family == V4 && subnet.bits == 24 && subnet.Aligned() && IsFirstClear(subnet, ifaces, Occupied(st, kernel))
    && renumber == Renumbers(lib, was.network, Delegated(ifaces))
    && now == WithGuests(was, text(subnet.addr + 1), UplinkZone(st), renumber, q.(radios := radios))
  }

  // ---- Radios ----

  /** Section names are unique as words. */
  predicate UniqueNames(file: seq<Section>) {
    forall i, j :: 0 <= i < j < |file| ==> IdWord(file[i].id) != IdWord(file[j].id)
  }

  /** 6 GHz allows only a security the panel does not offer. */
  predicate SixGHz(s: Section) { Opt(s, Band) == "6g" || Opt(s, Band) == "6" }

  predicate RadioUsable(wireless: seq<Section>, name: string) {
    IsName(name) && exists s :: s in wireless && s.kind.WifiDevice? && IdWord(s.id) == name && !SixGHz(s)
  }

  /** The radios used are the ones asked for, once each, or all there are when
      none are; every one of them can carry a guest network. */
  predicate Chosen(wireless: seq<Section>, asked: seq<string>, radios: seq<string>) {
    && radios != [] && Distinct(radios) && (forall x :: x in radios ==> RadioUsable(wireless, x))
    && (forall x :: x in asked ==> x in radios)
    && (if asked != [] then forall x :: x in radios ==> x in asked
        else forall s :: s in wireless && s.kind.WifiDevice? && !SixGHz(s) ==> IdWord(s.id) in radios)
  }

  /** No radio of the 6 GHz band is among them; one of 2.4 or 5 GHz with a name
      can be. */
  lemma ChosenCanCarry(wireless: seq<Section>, asked: seq<string>, radios: seq<string>, s: Section)
    requires s in wireless && s.kind.WifiDevice? && UniqueNames(wireless) && Chosen(wireless, asked, radios)
    ensures IdWord(s.id) in radios ==> Opt(s, Band) != "6g" && Opt(s, Band) != "6" && IsName(IdWord(s.id))
    ensures (Opt(s, Band) == "2g" || Opt(s, Band) == "5g") && IsName(IdWord(s.id)) ==> RadioUsable(wireless, IdWord(s.id))
  {
    hide Distinct, IsName;
    if IdWord(s.id) in radios {
      assert RadioUsable(wireless, IdWord(s.id));
      var t :| t in wireless && t.kind.WifiDevice? && IdWord(t.id) == IdWord(s.id) && !SixGHz(t);
      SameByName(wireless, s, t);
    }
    assert "2g"[0] != "6g"[0] && "5g"[0] != "6g"[0];
  }

  lemma SameByName(file: seq<Section>, s: Section, t: Section)
    requires UniqueNames(file) && s in file && t in file && IdWord(s.id) == IdWord(t.id)
    ensures s == t
  {
    hide IdWord;
    var i :| 0 <= i < |file| && file[i] == s;
    var j :| 0 <= j < |file| && file[j] == t;
    assert i == j;
  }

  lemma DistinctMore(radios: seq<string>, x: string)
    requires Distinct(radios) && x !in radios
    ensures Distinct(radios + [x])
  {
  }

  method Dedupe(asked: seq<string>) returns (radios: seq<string>)
    ensures Distinct(radios) && (radios == [] <==> asked == [])
    ensures forall x :: x in radios <==> x in asked
  {
    hide Distinct;
    radios := [];
    assert Distinct(radios) by { NoneDistinct(); }
    for k := 0 to |asked|
      invariant Distinct(radios) && (radios == [] <==> k == 0)
      invariant forall x :: x in radios <==> x in asked[..k]
    {
      assert asked[..k + 1] == asked[..k] + [asked[k]];
      if asked[k] !in radios {
        DistinctMore(radios, asked[k]);
        radios := radios + [asked[k]];
      }
    }
    assert asked[..|asked|] == asked;
  }

  lemma NoneDistinct()
    ensures Distinct([])
  {
  }

  method AllRadios(wireless: seq<Section>) returns (radios: seq<string>)
    requires UniqueNames(wireless)
    ensures Distinct(radios)
    ensures forall x :: x in radios <==> exists s :: s in wireless && s.kind.WifiDevice? && !SixGHz(s) && IdWord(s.id) == x
  {
    hide Distinct, SixGHz;
    radios := [];
    assert Distinct(radios) by { NoneDistinct(); }
    for k := 0 to |wireless|
      invariant Distinct(radios)
      invariant forall x :: x in radios ==> exists i :: 0 <= i < k && wireless[i].kind.WifiDevice? && !SixGHz(wireless[i]) && IdWord(wireless[i].id) == x
      invariant forall i :: 0 <= i < k && wireless[i].kind.WifiDevice? && !SixGHz(wireless[i]) ==> IdWord(wireless[i].id) in radios
    {
      var s := wireless[k];
      if s.kind.WifiDevice? && !SixGHz(s) {
        assert IdWord(s.id) !in radios;
        DistinctMore(radios, IdWord(s.id));
        radios := radios + [IdWord(s.id)];
      }
    }
  }

  /** Every radio asked for can carry a guest network; when none is asked for,
      there is a radio that could, and all of those have names. */
  predicate Choosable(wireless: seq<Section>, asked: seq<string>) {
    if asked != [] then forall x :: x in asked ==> RadioUsable(wireless, x)
    else
      && (exists s :: s in wireless && s.kind.WifiDevice? && !SixGHz(s))
      && forall s :: s in wireless && s.kind.WifiDevice? && !SixGHz(s) ==> RadioUsable(wireless, IdWord(s.id))
  }

  /** The radios to use, or nothing when one of them cannot be used or there
      are none. */
  method ChooseRadios(wireless: seq<Section>, asked: seq<string>) returns (r: Option<seq<string>>)
    requires UniqueNames(wireless)
    ensures r.Some? ==> Chosen(wireless, asked, r.value)
    ensures r.Some? <==> Choosable(wireless, asked)
  {
    hide RadioUsable, UniqueNames, SixGHz, Distinct;
    var radios := Dedupe(asked);
    if radios == [] {
      radios := AllRadios(wireless);
      assert forall s :: s in wireless && s.kind.WifiDevice? && !SixGHz(s) ==> IdWord(s.id) in radios;
    }
    if radios == [] {
      return None;
    }
    for k := 0 to |radios|
      invariant forall j :: 0 <= j < k ==> RadioUsable(wireless, radios[j])
    {
      if !RadioUsable(wireless, radios[k]) {
        assert radios[k] in radios;
        return None;
      }
    }
    assert radios[0] in radios && forall x :: x in radios ==> RadioUsable(wireless, x);
    return Some(radios);
  }

  // ---- What staging rests on ----

  lemma ShapeRead(st: State)
    ensures st.Shape() == GuestShape(st.network, st.firewall, st.wireless, st.dhcp)
  {
  }

  lemma ShapeIs(st: State, g: Shape)
    requires g == GuestShape(st.network, st.firewall, st.wireless, st.dhcp) && !g.ours && !g.foreign && GuestBlocker(st).None?
    ensures Ready(st)
  {
    hide GuestBlocker, GuestShape;
  }

  lemma CandidateFits(c: Net)
    requires exists k: nat :: k < 504 && c == Candidate(k)
    ensures c.family == V4 && c.bits == 24 && c.Aligned() && c.addr + 1 < Pow2(32)
  {
    hide Candidate, Pow2, Prefix.Aligned;
    SubnetFits(c);
  }

  lemma LanIsThere(network: seq<Section>, renumber: bool)
    requires renumber ==> 0 < LanAssign(network) < 64
    ensures renumber ==> Find(network, Lan).Some?
  {
  }

  lemma ReadyIsEmpty(st: State)
    requires Ready(st)
    ensures NothingThere(FilesOf(st))
  {
    hide Ready, Clean, NothingThere;
    ReadyIsClean(st);
    CleanIsEmpty(st);
  }

  /** With nothing of the panel's in the draft or on disk, and the home
      network's assignment not in the draft, an undo has nothing else to lose. */
  lemma GuestsPending(now: Config, saved: Config, ip: string, wan: string, renumber: bool, q: Request)
    requires NothingThere(now) && NothingThere(saved) && AssignIsSaved(now.network, saved.network)
    ensures NothingPending(now, saved, AllTouched(GuestEdits(ip, wan, renumber, q)))
  {
    hide GuestEdits, OwnEdit, NothingThere, Fresh, Config.At, TouchedBy, RevertedAssign, LanAsSaved;
    var edits := GuestEdits(ip, wan, renumber, q);
    var ts := AllTouched(edits);
    AssignFixed(now.network, saved.network);
    forall t | t in ts && t.WholeSection? ensures Fresh(now.At(t.file), t.id) && Fresh(saved.At(t.file), t.id) {
      var k :| 0 <= k < |ts| && ts[k] == t;
      assert t == TouchedBy(edits[k]);
      TouchedIs(edits[k]);
      OwnEdits(ip, wan, renumber, q, edits[k]);
      OwnIsFresh(now, edits[k]);
      OwnIsFresh(saved, edits[k]);
    }
  }

  /** A command of the recipe: in the panel's own sections, or the assignment. */
  predicate OwnEdit(e: Edit) {
    match e.file
    case NetworkFile => e.id == Own(Dev) || e.id == Guest || TouchedBy(e).HomeAssign?
    case WirelessFile => e.id.Own?
    case DhcpFile => e.id == Guest
    case FirewallFile => e.id == Guest || (e.id.Own? && e.id.role in SECTIONS)
  }

  lemma TouchedIs(e: Edit)
    ensures TouchedBy(e).HomeAssign? || TouchedBy(e) == WholeSection(e.file, e.id)
  {
  }

  lemma OwnIsFresh(c: Config, e: Edit)
    requires NothingThere(c) && OwnEdit(e) && !TouchedBy(e).HomeAssign?
    ensures Fresh(c.At(e.file), e.id)
  {
  }

  lemma OwnEdits(ip: string, wan: string, renumber: bool, q: Request, e: Edit)
    requires e in GuestEdits(ip, wan, renumber, q)
    ensures OwnEdit(e)
  {
    RulesInOrder();
    hide SectionEdits, RuleEdits, ListEdits, RadioEdits, RuleOrder, DevOptions, IfaceOptions, DhcpOptions, ZoneOptions, WanOptions;
  }

  lemma SameUntouched(before: Config, saved: Config, ts: seq<Touched>)
    ensures Untouched(before, before, saved, ts)
  {
  }

  lemma RevertStep(before: Config, now: Config, saved: Config, ts: seq<Touched>, t: Touched, seen: set<Touched>, all: bool)
    requires NothingPending(before, saved, ts) && Untouched(before, now, saved, ts) && t in ts
    requires all ==> forall u :: u in seen ==> TakenBack(now, saved, u)
    ensures Untouched(before, Reverted(now, saved, t), saved, ts)
    ensures all ==> forall u :: u in seen + {t} ==> TakenBack(Reverted(now, saved, t), saved, u)
  {
    RevertUntouched(before, now, saved, ts, t);
    assert t.WholeSection? ==> Fresh(saved.At(t.file), t.id);
    hide NothingPending, Untouched, TakenBack, Reverted, Fresh;
    RevertTakesBack(now, saved, t);
    if all {
      forall u | u in seen ensures TakenBack(Reverted(now, saved, t), saved, u) {
        StaysTakenBack(now, saved, t, u);
      }
    }
  }

  /** A staged guest network passes every check. */
  lemma StagedAgrees(was: Config, now: Config, q: Request, lib: Library, text: nat -> string, ifaces: seq<Live>, kernel: seq<Net>,
                     subnet: Net, renumber: bool, radios: seq<string>)
    requires IsStaged(was, now, q, lib, text, ifaces, kernel, subnet, renumber, radios)
    requires forall a: nat :: a < Pow2(32) ==> ReadsAddress(lib, text(a), a)
    ensures StateOf(now, ifaces, lib).Shape().ours && GuestWeakened(StateOf(now, ifaces, lib)).None?
    ensures GuestBlocker(StateOf(now, ifaces, lib)) ==
      if Uplink6(StateOf(was, ifaces, lib)) == GUEST then Some(SplitUplink) else None
  {
    hide Ready, Clear, IsFirstClear, Renumbers, ReadsAddress, Prefix.Aligned, UplinkZone, State.Shape, GuestBlocker, GuestWeakened, ZoneSubnets, Uplink6, WithGuests, ConfiguredPrefixes, Chosen, Pow2;
    var st, c := StateOf(was, ifaces, lib), q.(radios := radios);
    FirstIsClear(subnet, ifaces, Occupied(st, kernel));
    SubnetFits(subnet);
    WriterAndChecksAgree(st, subnet, Occupied(st, kernel), text(subnet.addr + 1), renumber, c);
  }

  /** A section of the network file holds the network, up or not: as a static
      address of an interface or as a static route. */
  predicate HoldsNetwork(lib: Library, s: Section, p: Net) {
    || (s.kind.Interface? && exists w :: w in Words(s, IpAddr) && p in Configured(lib, w, Opt(s, Netmask)))
    || (s.kind.Route? && p in Configured(lib, Opt(s, RouteTarget), Opt(s, Netmask)))
  }

  lemma {:induction false} ConfiguredHas(lib: Library, addrs: seq<string>, mask: string, w: string, p: Net)
    requires w in addrs && p in Configured(lib, w, mask)
    ensures p in ConfiguredAll(lib, addrs, mask)
  {
    hide Configured;
    if addrs[0] != w {
      ConfiguredHas(lib, addrs[1..], mask, w, p);
    }
  }

  lemma {:induction false} NetworkHas(lib: Library, network: seq<Section>, s: Section, p: Net)
    requires s in network && HoldsNetwork(lib, s, p)
    ensures p in ConfiguredPrefixes(lib, network)
  {
    hide Configured, ConfiguredAll, Words, Opt;
    if network[0] != s {
      NetworkHas(lib, network[1..], s, p);
    } else if s.kind.Interface? {
      var w :| w in Words(s, IpAddr) && p in Configured(lib, w, Opt(s, Netmask));
      ConfiguredHas(lib, Words(s, IpAddr), Opt(s, Netmask), w, p);
    }
  }

  /** The network a staged guest network is given shares no address with any the
      router has: those of the kernel's routes, of the live interfaces, of the
      other zones' ranges, and of what is configured but not up. */
  lemma StagedIsApart(was: Config, now: Config, q: Request, lib: Library, text: nat -> string, ifaces: seq<Live>, kernel: seq<Net>,
                      subnet: Net, renumber: bool, radios: seq<string>, p: Net)
    requires IsStaged(was, now, q, lib, text, ifaces, kernel, subnet, renumber, radios)
    requires p.family == V4 && p.bits >= 8
    requires p in kernel || (exists i :: i in ifaces && (p in i.addrs || p in i.routes))
      || (exists z :: z in was.firewall && BoundRange(lib, z, p)) || (exists s :: s in was.network && HoldsNetwork(lib, s, p))
    ensures !Overlap(subnet, p)
  {
    hide Ready, Chosen, Renumbers, IsFirstClear, UplinkZone, WithGuests, ZoneSubnets, ConfiguredPrefixes, BoundRange, HoldsNetwork, Overlap, Prefix.Aligned;
    var st := StateOf(was, ifaces, lib);
    var taken := Occupied(st, kernel);
    FirstIsClear(subnet, ifaces, taken);
    ZoneSubnetsAreRanges(lib, was.firewall, p);
    if s :| s in was.network && HoldsNetwork(lib, s, p) {
      NetworkHas(lib, was.network, s, p);
    }
    assert Taken(ifaces, taken, p);
  }

  /** Once it is what the router runs, a staged guest network keeps guests to
      the internet. */
  lemma StagedIsKept(was: Config, now: Config, q: Request, lib: Library, text: nat -> string, ifaces: seq<Live>, kernel: seq<Net>,
                     subnet: Net, renumber: bool, radios: seq<string>, p: Packet)
    requires IsStaged(was, now, q, lib, text, ifaces, kernel, subnet, renumber, radios)
    requires forall a: nat :: a < Pow2(32) ==> ReadsAddress(lib, text(a), a)
    requires Unique(was.firewall)
    requires UplinkZone(StateOf(was, ifaces, lib)) != "*" && Uplink6(StateOf(was, ifaces, lib)) != GUEST
    requires Sensible(p) && Untaken(lib, was.firewall, subnet, p) && Accepted(StateOf(now, ifaces, lib), p)
    ensures Service(p) || (p.to == UplinkZone(StateOf(was, ifaces, lib)) && !Private(p))
  {
    hide Ready, Clear, IsFirstClear, Renumbers, ReadsAddress, Prefix.Aligned, Prefix.Contains, Sensible, Service, Private, Accepted, UplinkZone, Untaken, Unique, ZoneSubnets, Uplink6, WithGuests, ConfiguredPrefixes, Chosen, Pow2, HoldsHome;
    var st, c := StateOf(was, ifaces, lib), q.(radios := radios);
    FirstIsClear(subnet, ifaces, Occupied(st, kernel));
    SubnetFits(subnet);
    MadeGuestsAreKept(st, subnet, Occupied(st, kernel), text(subnet.addr + 1), renumber, c, p);
  }

  lemma FirstIsClear(c: Net, ifaces: seq<Live>, taken: seq<Net>)
    requires IsFirstClear(c, ifaces, taken)
    ensures Clear(c, ifaces, taken) && exists k: nat :: k < 504 && c == Candidate(k)
  {
    hide Clear, Candidate;
  }

  lemma SubnetFits(c: Net)
    requires c.family == V4 && c.bits == 24 && c.Aligned()
    ensures c.addr + 1 < Pow2(32)
  {
    SizeOf24();
    LanAddresses.WordSize();
    hide Pow2;
    assert c.addr % 256 == 0;
  }
}
