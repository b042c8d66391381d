/** The emergency command: put back the network files of the newest restore
    point that differs (internal/adapters/openwrt/restore.go). */
module EmergencyRestore {
  import opened Outcomes
  import opened Configuration

  /** The files the panel writes, and the only ones the command puts back. */
  function Written(): set<string> { {"network", "dhcp", "firewall"} }

  /** The files whose content, or presence, is not what it is now. */
  function Differs(point: Config, live: Config): set<string> {
    set c | c in Written() && ((c in point) != (c in live) || (c in point && point[c] != live[c]))
  }

  /** The newest restore point, by id, that differs from the files now. */
  ghost predicate IsChosen(d: Disk, id: Id) {
    && id in d.snapshots && Differs(d.snapshots[id], d.live) != {}
    && forall x :: x in d.snapshots && x > id ==> Differs(d.snapshots[x], d.live) == {}
  }

  ghost predicate NothingToRestore(d: Disk) {
    forall x :: x in d.snapshots ==> Differs(d.snapshots[x], d.live) == {}
  }

  /** The files after some of a point's have been put over those there. */
  function PutSome(point: Config, live: Config, which: set<string>): Config {
    live + (map c | c in which && c in point :: point[c])
  }

  function PutBack(point: Config, live: Config): Config {
    PutSome(point, live, Differs(point, live))
  }

  lemma PutOne(point: Config, live: Config, which: set<string>, c: string)
    ensures PutSome(point, live, which + {c}) ==
      if c in point then PutSome(point, live, which)[c := point[c]] else PutSome(point, live, which)
  {
  }

  /** The disk after point `id` has been restored at the second `now`. */
  function After(d: Disk, id: Id, now: Id): Disk
    requires id in d.snapshots
  {
    Disk(PutBack(d.snapshots[id], d.live), map[], Pruned(d.snapshots[now := d.live]), d.journal)
  }

  /** One run of the command, without options, in which every step works. */
  ghost predicate Restored(d: Disk, now: Id, e: Disk) {
    if d.journal.Some? || NothingToRestore(d) then e == d
    else exists id: Id :: IsChosen(d, id) && e == After(d, id, now)
  }

  ghost predicate NewerThanAll(d: Disk, now: Id) {
    forall id :: id in d.snapshots ==> id < now
  }

  /** The network files are as they were. */
  predicate SameNetwork(a: Config, b: Config) {
    Alike("network", a, b) && Alike("dhcp", a, b) && Alike("firewall", a, b)
  }

  /** The file is in both with one content, or in neither. */
  predicate Alike(f: string, a: Config, b: Config) {
    (f in a) == (f in b) && (f in a ==> a[f] == b[f])
  }

  lemma AlikeOnes(a: Config, b: Config)
    ensures SameNetwork(a, b) <==> forall c :: c in Written() ==> Alike(c, a, b)
  {
  }

  /** A point differs when one of the three files does. */
  lemma DiffersByFile(point: Config, live: Config)
    ensures Differs(point, live) == {} <==> SameNetwork(point, live)
  {
    hide Written;
    AlikeOnes(point, live);
    if !SameNetwork(point, live) {
      var c :| c in Written() && !Alike(c, point, live);
      assert c in Differs(point, live);
    }
  }

  /** The three files are then as in the point, but for one the point does not
      have, which stays as it is, as every other file does. */
  lemma PutBackByFile(point: Config, live: Config, f: string)
    ensures (f == "network" || f == "dhcp" || f == "firewall") && f in point ==> Alike(f, PutBack(point, live), point)
    ensures !((f == "network" || f == "dhcp" || f == "firewall") && f in point) ==> Alike(f, PutBack(point, live), live)
  {
  }

  lemma ChosenIsUnique(d: Disk, a: Id, b: Id)
    requires IsChosen(d, a) && IsChosen(d, b)
    ensures a == b
  {
  }

  /** The undo point: the first run leaves what it replaced as the newest, and
      nothing newer than a point that is left has gone. */
  lemma UndoPoint(d: Disk, now: Id, kept: map<Id, Config>)
    requires NewerThanAll(d, now) && kept == Pruned(d.snapshots[now := d.live])
    ensures now in kept && kept[now] == d.live
    ensures forall id :: id in kept ==> id <= now && (id == now || (id in d.snapshots && kept[id] == d.snapshots[id]))
    ensures forall id, x :: id in kept && x in d.snapshots && x > id ==> x in kept
  {
    PrunedKeeps(d.snapshots, now, d.live);
    assert Above(d.snapshots.Keys, now) == {};
    forall id, x | id in kept && x in d.snapshots && x > id ensures x in kept {
      AboveShrinks(d.snapshots[now := d.live].Keys, id, x);
    }
  }

  /** Running the command twice undoes it, exactly unless the first run brought
      a file back that was not there: the second cannot take it away again. */
  lemma TwiceIsUndone(d: Disk, now: Id, e: Disk, later: Id, f: Disk)
    requires NewerThanAll(d, now) && NewerThanAll(e, later)
    requires Restored(d, now, e) && Restored(e, later, f)
    ensures d.journal.Some? ==> f == d
    ensures d.journal.None? ==> (SameNetwork(f.live, d.live) <==>
      forall id :: IsChosen(d, id) ==> Differs(d.snapshots[id], d.live) * d.snapshots[id].Keys <= d.live.Keys)
  {
    if d.journal.Some? || NothingToRestore(d) {
      return;
    }
    var id: Id :| IsChosen(d, id) && e == After(d, id, now);
    forall x | IsChosen(d, x) ensures x == id { ChosenIsUnique(d, x, id); }
    UndoPoint(d, now, e.snapshots);
    if Differs(d.snapshots[id], d.live) * d.snapshots[id].Keys == {} {
      NothingPutBack(d, now, id, e, f, later);
    } else {
      SecondTakesUndo(d, now, id, e);
      var second: Id :| IsChosen(e, second) && f == After(e, second, later);
      ChosenIsUnique(e, now, second);
      UndoReturns(d.snapshots[id], d.live);
    }
  }

  /** A disk from which a file has gone since its one restore point. */
  function LostDhcp(): Disk {
    Disk(map["network" := "n"], map[], map[1 := map["network" := "n", "dhcp" := "d"]], None)
  }

  /** There two runs do not undo each other: the file stays. */
  lemma NotUndone()
    ensures var d := LostDhcp(); var e := After(d, 1, 2);
      2 in e.snapshots
      && NewerThanAll(d, 2) && NewerThanAll(e, 3) && Restored(d, 2, e)
      && Restored(e, 3, After(e, 2, 3)) && !SameNetwork(After(e, 2, 3).live, d.live)
  {
    var d := LostDhcp();
    OneLost(d.live, d.snapshots[1]);
    assert IsChosen(d, 1) && !NothingToRestore(d);
    var e := After(d, 1, 2);
    UndoPoint(d, 2, e.snapshots);
    assert "dhcp" in Differs(d.snapshots[1], d.live) * d.snapshots[1].Keys;
    SecondTakesUndo(d, 2, 1, e);
    TwiceIsUndone(d, 2, e, 3, After(e, 2, 3));
  }

  lemma OneLost(live: Config, point: Config)
    requires live == map["network" := "n"] && point == map["network" := "n", "dhcp" := "d"]
    ensures Differs(point, live) == {"dhcp"}
  {
    assert |"network"| != |"dhcp"| && |"firewall"| != |"dhcp"| && |"firewall"| != |"network"|;
  }

  /** What comes back from putting the old files over the restored ones. */
  lemma UndoReturns(point: Config, live: Config)
    ensures SameNetwork(PutBack(live, PutBack(point, live)), live) <==> Differs(point, live) * point.Keys <= live.Keys
  {
    var mid := PutBack(point, live);
    var out := PutBack(live, mid);
    forall c | c in Written() ensures Alike(c, out, live) <==> (c in Differs(point, live) && c in point ==> c in live) {
    }
    AlikeOnes(out, live);
  }

  lemma SecondTakesUndo(d: Disk, now: Id, id: Id, e: Disk)
    requires NewerThanAll(d, now) && IsChosen(d, id) && e == After(d, id, now)
    requires Differs(d.snapshots[id], d.live) * d.snapshots[id].Keys != {}
    ensures IsChosen(e, now) && !NothingToRestore(e)
  {
    UndoPoint(d, now, e.snapshots);
    var c :| c in Differs(d.snapshots[id], d.live) * d.snapshots[id].Keys;
    assert c in Differs(e.snapshots[now], e.live);
  }

  /** A point whose differing files are all missing from it changes nothing,
      the first time or the second. */
  lemma NothingPutBack(d: Disk, now: Id, id: Id, e: Disk, f: Disk, later: Id)
    requires NewerThanAll(d, now) && IsChosen(d, id) && e == After(d, id, now) && d.journal.None?
    requires Differs(d.snapshots[id], d.live) * d.snapshots[id].Keys == {}
    requires Restored(e, later, f)
    ensures f.live == d.live
  {
    UndoPoint(d, now, e.snapshots);
    EmptyPutBack(d.snapshots[id], d.live);
    if !NothingToRestore(e) {
      var second: Id :| IsChosen(e, second) && f == After(e, second, later);
      SameIsChosen(d, id, e, now, second);
      EmptyPutBack(d.snapshots[id], d.live);
    }
  }

  lemma EmptyPutBack(point: Config, live: Config)
    requires Differs(point, live) * point.Keys == {}
    ensures PutBack(point, live) == live
  {
    assert forall c :: c in Differs(point, live) && c in point ==> c in Differs(point, live) * point.Keys;
  }

  /** With the files unchanged, the second run chooses the same point. */
  lemma SameIsChosen(d: Disk, id: Id, e: Disk, now: Id, second: Id)
    requires NewerThanAll(d, now) && IsChosen(d, id) && e == After(d, id, now) && e.live == d.live
    requires IsChosen(e, second)
    ensures second == id && e.snapshots[second] == d.snapshots[id]
  {
    UndoPoint(d, now, e.snapshots);
    assert Differs(d.live, d.live) == {};
  }

  // ---- The command ----

  datatype Outcome = Unreadable | ChangePending | NoSuchPoint | NothingDiffers | WriteFailed | Done

  datatype Point = Point(id: Id, differs: set<string>)

  /** The point one run is to put back: the one asked for if anything of it
      differs, else the newest that does. */
  ghost predicate IsTarget(d: Disk, wanted: Option<Id>, id: Id) {
    if wanted.None? then IsChosen(d, id)
    else id == wanted.value && id in d.snapshots && Differs(d.snapshots[id], d.live) != {}
  }

  /** One run of the command in which nothing fails: what it answers, and the
      disk it leaves. */
  ghost predicate Carried(d: Disk, wanted: Option<Id>, force: bool, now: Id, r: Outcome, e: Disk) {
    if d.journal.Some? && !force then r == ChangePending && e == d
    else if wanted.Some? && wanted.value !in d.snapshots then r == NoSuchPoint && e == d
    else if forall id: Id :: !IsTarget(d, wanted, id) then r == NothingDiffers && e == d
    else r == Done && exists id: Id :: IsTarget(d, wanted, id) && Leaves(d, id, force, now, e)
  }

  /** What restoring point `id` leaves; forced, no record either. */
  ghost predicate Leaves(d: Disk, id: Id, force: bool, now: Id, e: Disk) {
    id in d.snapshots && e == After(d, id, now).(journal := if force then None else d.journal)
  }

  lemma UnforcedIsRestored(d: Disk, now: Id, r: Outcome, e: Disk)
    requires Carried(d, None, false, now, r, e)
    ensures Restored(d, now, e)
  {
    if d.journal.None? && !NothingToRestore(d) {
      NewestExists(d);
      var newest: Id :| IsChosen(d, newest);
      assert IsTarget(d, None, newest);
      var id: Id :| IsTarget(d, None, id) && Leaves(d, id, false, now, e);
    }
  }

  lemma NewestExists(d: Disk)
    requires !NothingToRestore(d)
    ensures exists id: Id :: IsChosen(d, id)
  {
    var differing := set x | x in d.snapshots && Differs(d.snapshots[x], d.live) != {};
    var x :| x in d.snapshots && Differs(d.snapshots[x], d.live) != {};
    assert x in differing;
    var id := Greatest(differing);
    forall x | x in d.snapshots && x > id ensures Differs(d.snapshots[x], d.live) == {} {
      assert x !in differing;
    }
    assert IsChosen(d, id);
  }

  lemma Greatest(ids: set<Id>) returns (most: Id)
    requires ids != {}
    ensures most in ids && forall x :: x in ids ==> x <= most
  {
    most :| most in ids;
    if ids != {most} {
      assert exists x :: x in ids && x != most;
      var next := Greatest(ids - {most});
      assert forall x :: x in ids ==> x == most || x in ids - {most};
      most := if next > most then next else most;
    }
  }

  /** Every restore point that can be read, newest first, with what differs from
      the files now. */
  method Points(device: Device) returns (points: seq<Point>)
    requires device.Valid()
    modifies device`faults
    ensures device.Valid() && device.faults >= old(device.faults)
    ensures AreSome(device.disk, points)
    ensures device.faults == old(device.faults) ==> AreAll(device.disk, points)
  {
    hide Differs;
    points := [];
    ghost var d := device.disk;
    var left := device.disk.snapshots.Keys;
    while left != {}
      invariant left <= d.snapshots.Keys && AreSome(d, points)
      invariant forall i, id :: 0 <= i < |points| && id in left ==> points[i].id > id
      invariant device.Valid() && device.faults >= old(device.faults)
      invariant device.faults == old(device.faults) ==>
        forall id :: id in d.snapshots && id !in left ==> exists i :: 0 <= i < |points| && points[i].id == id
      decreases left
    {
      var id := Newest(left);
      left := left - {id};
      var opens := device.Try();
      if opens {
        ghost var before := points;
        points := points + [Point(id, Differs(device.disk.snapshots[id], device.disk.live))];
        assert points[|before|].id == id;
        assert forall i :: 0 <= i < |before| ==> points[i] == before[i];
      }
    }
  }

  /** Points of the disk, newest first. */
  ghost predicate AreSome(d: Disk, points: seq<Point>) {
    && (forall i :: 0 <= i < |points| ==>
      points[i].id in d.snapshots && points[i].differs == Differs(d.snapshots[points[i].id], d.live))
    && forall i, j :: 0 <= i < j < |points| ==> points[i].id > points[j].id
  }

  /** None is left out. */
  ghost predicate AreAll(d: Disk, points: seq<Point>) {
    AreSome(d, points) && forall id :: id in d.snapshots ==> exists i :: 0 <= i < |points| && points[i].id == id
  }

  /** Writes the differing files of a point that has them, in order. */
  method PutFiles(device: Device, point: Config) returns (ok: bool)
    requires device.Valid()
    modifies device
    ensures device.Valid() && device.disk == old(device.disk).(live := device.disk.live)
    ensures forall f :: f in old(device.disk).live && f !in Written() ==>
      f in device.disk.live && device.disk.live[f] == old(device.disk).live[f]
    ensures ok ==> device.disk.live == PutBack(point, old(device.disk).live)
    ensures ok <==> device.unwritten == old(device.unwritten)
    ensures device.faults >= old(device.faults) && (ok <==> device.faults == old(device.faults))
    ensures device.unwritten >= old(device.unwritten)
  {
    hide PutSome;
    ghost var live := device.disk.live;
    var differs := Differs(point, device.disk.live);
    ghost var done: set<string> := {};
    PutNone(point, live);
    var order := ["network", "dhcp", "firewall"];
    for n := 0 to |order|
      invariant device.Valid() && device.disk == old(device.disk).(live := device.disk.live)
      invariant device.disk.live == PutSome(point, live, done)
      invariant device.faults == old(device.faults) && device.unwritten == old(device.unwritten)
      invariant forall c :: c in done <==> c in differs && c in order[..n]
    {
      var c := order[n];
      assert order[..n+1] == order[..n] + [c];
      PutOne(point, live, done, c);
      if c in differs && c in point {
        OnlyWritten(point, live, done);
        var written := device.WriteFile(c, point[c]);
        if !written {
          return false;
        }
      }
      if c in differs {
        done := done + {c};
      }
    }
    assert order[..|order|] == order;
    assert done == differs;
    OnlyWritten(point, live, done);
    ok := true;
  }

  lemma PutNone(point: Config, live: Config)
    ensures PutSome(point, live, {}) == live
  {
  }

  lemma OnlyWritten(point: Config, live: Config, which: set<string>)
    requires which <= Written()
    ensures forall f :: f in live && f !in Written() ==> f in PutSome(point, live, which) && PutSome(point, live, which)[f] == live[f]
  {
  }

  /** Keeps what is replaced as a point of its own, drops the draft, and puts
      the files back; neither of the first two stands in the way of the third. */
  method Replace(device: Device, point: Config, now: Id) returns (ok: bool)
    requires device.Valid()
    modifies device
    ensures device.Valid() && device.disk.journal == old(device.disk).journal
    ensures forall f :: f in old(device.disk).live && f !in Written() ==>
      f in device.disk.live && device.disk.live[f] == old(device.disk).live[f]
    ensures ok ==> device.disk.live == PutBack(point, old(device.disk).live)
    ensures ok <==> device.unwritten == old(device.unwritten)
    ensures device.faults >= old(device.faults) && device.unwritten >= old(device.unwritten)
    ensures device.faults == old(device.faults) ==> ok && device.disk.staged == map[]
    ensures device.faults == old(device.faults) ==>
      device.disk.snapshots == Pruned(old(device.disk).snapshots[now := old(device.disk).live])
  {
    hide Differs, Written, PutBack, Pruned;
    ghost var persisted;
    var undo;
    undo, persisted := device.TakeSnapshot(now);
    var dropped := device.DropStaged();
    ok := PutFiles(device, point);
  }

  /** The chosen point put back, the record dropped when that is forced, and the
      services told; only the files can make it fail. */
  method CarryOut(device: Device, id: Id, force: bool, now: Id) returns (ok: bool)
    requires device.Valid() && id in device.disk.snapshots
    modifies device
    ensures device.Valid() && (!force ==> device.disk.journal == old(device.disk).journal)
    ensures forall f :: f in old(device.disk).live && f !in Written() ==>
      f in device.disk.live && device.disk.live[f] == old(device.disk).live[f]
    ensures device.faults >= old(device.faults) && device.unwritten >= old(device.unwritten)
    ensures ok <==> device.unwritten == old(device.unwritten)
    ensures ok ==> device.disk.live == PutBack(old(device.disk).snapshots[id], old(device.disk).live)
    ensures device.faults == old(device.faults) ==>
      ok && Leaves(old(device.disk), id, force, now, device.disk) && device.told == device.disk.live
  {
    hide Differs, Written, PutBack, Pruned;
    ok := Replace(device, device.disk.snapshots[id], now);
    if !ok {
      return;
    }
    if force {
      var cleared := device.Clear();
    }
    var told := device.Reload();
  }

  /** The command. Without `force` it refuses while a change awaits its own
      undoing; with it, the record of that change is dropped as well. Of all
      that may fail, only reading the points and writing the files end it. */
  method Restore(device: Device, wanted: Option<Id>, force: bool, now: Id) returns (r: Outcome)
    requires device.Valid()
    modifies device
    ensures device.Valid()
    ensures r != Done && r != WriteFailed ==> device.disk == old(device.disk)
    ensures forall f :: f in old(device.disk).live && f !in Written() ==>
      f in device.disk.live && device.disk.live[f] == old(device.disk).live[f]
    ensures !force ==> device.disk.journal == old(device.disk).journal
    ensures device.faults >= old(device.faults)
    ensures device.faults == old(device.faults) ==> Carried(old(device.disk), wanted, force, now, r, device.disk)
    ensures r == WriteFailed <==> device.unwritten > old(device.unwritten)
    ensures r == Done && device.faults == old(device.faults) ==> device.told == device.disk.live
    ensures r == ChangePending ==> old(device.disk).journal.Some? && !force
    ensures r == Unreadable ==> device.faults > old(device.faults)
    ensures wanted.Some? && r == Done ==> wanted.value in old(device.disk).snapshots
    ensures wanted.Some? && r == Done ==>
      device.disk.live == PutBack(old(device.disk).snapshots[wanted.value], old(device.disk).live)
  {
    hide Differs, Written, PutBack, Pruned, IsChosen, Leaves, Device.Valid;
    ghost var d := device.disk;
    var listed := device.Try();
    if !listed {
      return Unreadable;
    }
    var points := Points(device);
    var loads := device.Try();
    if loads && device.disk.journal.Some? && !force {
      return ChangePending;
    }
    var at := Choose(points, wanted);
    if device.faults == old(device.faults) {
      ChoiceIsTarget(d, points, at, wanted);
    }
    if at == |points| {
      return if wanted.Some? then NoSuchPoint else NothingDiffers;
    }
    if points[at].differs == {} {
      return NothingDiffers;
    }
    var put := CarryOut(device, points[at].id, force, now);
    r := if put then Done else WriteFailed;
  }

  lemma ChoiceIsTarget(d: Disk, points: seq<Point>, at: nat, wanted: Option<Id>)
    requires AreAll(d, points) && at == Choose(points, wanted)
    ensures at < |points| && points[at].differs != {} ==> IsTarget(d, wanted, points[at].id)
    ensures at == |points| && wanted.Some? ==> wanted.value !in d.snapshots
    ensures wanted.Some? && wanted.value !in d.snapshots ==> at == |points|
    ensures at == |points| || points[at].differs == {} ==> forall id: Id :: !IsTarget(d, wanted, id)
  {
    if wanted.None? {
      ChoiceIsNewest(d, points, at, wanted);
    }
  }

  /** Over every readable point, the default choice is the newest that differs. */
  lemma ChoiceIsNewest(d: Disk, points: seq<Point>, at: nat, wanted: Option<Id>)
    requires AreAll(d, points) && at == Choose(points, wanted)
    ensures wanted.None? && at == |points| ==> NothingToRestore(d)
    ensures wanted.None? && at < |points| ==> IsChosen(d, points[at].id) && !NothingToRestore(d)
  {
    hide Differs, Choose;
    if wanted.None? {
      forall x | x in d.snapshots && (at < |points| ==> x > points[at].id)
        ensures Differs(d.snapshots[x], d.live) == {}
      {
        var i :| 0 <= i < |points| && points[i].id == x;
      }
    }
  }

  /** The point asked for, or the first that differs; |points| when there is none. */
  function Choose(points: seq<Point>, wanted: Option<Id>): (at: nat)
    ensures at <= |points|
    ensures at < |points| ==> if wanted.Some? then points[at].id == wanted.value else points[at].differs != {}
    ensures wanted.None? ==> forall i :: 0 <= i < at ==> points[i].differs == {}
    ensures wanted.Some? ==> forall i :: 0 <= i < at ==> points[i].id != wanted.value
  {
    if points == [] then 0
    else if (if wanted.Some? then points[0].id == wanted.value else points[0].differs != {}) then 0
    else 1 + Choose(points[1..], wanted)
  }

  method Newest(ids: set<Id>) returns (most: Id)
    requires ids != {}
    ensures most in ids && forall x :: x in ids ==> x <= most
  {
    most :| most in ids;
    var left := ids - {most};
    while left != {}
      invariant left <= ids && most in ids
      invariant forall x :: x in ids && x !in left ==> x <= most
      decreases left
    {
      var x :| x in left;
      if x > most {
        most := x;
      }
      left := left - {x};
    }
  }
}
