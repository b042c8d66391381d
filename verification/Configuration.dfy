/** The router's configuration as the apply transaction sees it: files in force,
    a draft over them, snapshots of the files, and one record of a transaction
    nobody has confirmed yet (internal/adapters/openwrt/uci.go, journal.go). */
module Configuration {
  import opened Outcomes
  import opened Collections

  /** File names and what is in them. */
  type Config = map<string, string>

  /** A snapshot's id is the second it was taken at; ids sort by time. */
  type Id = nat

  datatype Snapshot = Snapshot(id: Id, payload: Config)

  datatype Record = Record(snapshot: Id, token: nat)

  const KEEP: nat := 5

  /** What survives the daemon. */
  datatype Disk = Disk(live: Config, staged: Config, snapshots: map<Id, Config>, journal: Option<Record>)

  function Above(ids: set<Id>, id: Id): set<Id> {
    set x | x in ids && x > id
  }

  /** The newest archives, and no others. */
  function Pruned(snapshots: map<Id, Config>): map<Id, Config> {
    map id | id in snapshots && |Above(snapshots.Keys, id)| < KEEP :: snapshots[id]
  }

  /** The files in force once a record found at start has been undone: the
      snapshot unpacked over what is there, when there is one. */
  function Recovered(d: Disk): Config {
    if d.journal.Some? && d.journal.value.snapshot in d.snapshots
    then d.live + d.snapshots[d.journal.value.snapshot]
    else d.live
  }

  /** Partly `b` over `a`: no file of `a` is gone, and each is as in one of the two. */
  predicate Between(a: Config, b: Config, c: Config) {
    && a.Keys <= c.Keys <= a.Keys + b.Keys
    && forall f :: f in c ==> (f in a && c[f] == a[f]) || (f in b && c[f] == b[f])
  }

  /** Nothing but the archives is other than in `d`. */
  predicate OnlyArchives(d: Disk, now: Disk) {
    now == d.(snapshots := now.snapshots)
  }

  /** The draft edits files that exist. */
  predicate Editable(d: Disk) {
    d.staged.Keys <= d.live.Keys
  }

  lemma {:induction false} AboveShrinks(ids: set<Id>, a: Id, b: Id)
    requires a <= b
    ensures |Above(ids, b)| <= |Above(ids, a)|
    ensures a < b && b in ids ==> |Above(ids, b)| < |Above(ids, a)|
  {
    assert Above(ids, b) <= Above(ids, a);
    SubsetSize(Above(ids, b), Above(ids, a));
    if a < b && b in ids {
      assert Above(ids, b) <= Above(ids, a) - {b};
      SubsetSize(Above(ids, b), Above(ids, a) - {b});
    }
  }

  /** An archive stays exactly while fewer than five are newer: the one just
      written is lost when the clock has stepped back behind five others. */
  lemma PrunedKeeps(snapshots: map<Id, Config>, id: Id, payload: Config)
    ensures id in Pruned(snapshots[id := payload]) <==> |Above(snapshots.Keys, id)| < KEEP
    ensures id in Pruned(snapshots[id := payload]) ==> Pruned(snapshots[id := payload])[id] == payload
  {
    assert Above(snapshots[id := payload].Keys, id) == Above(snapshots.Keys, id);
  }

  /** A stage of committing the draft of `d`: what is no longer drafted is in
      force as drafted, and nothing else has changed. */
  ghost predicate PartlyCommitted(d: Disk, now: Disk) {
    && now == d.(live := now.live, staged := now.staged) && now.live.Keys == d.live.Keys
    && now.staged.Keys <= d.staged.Keys && (forall f :: f in now.staged ==> now.staged[f] == d.staged[f])
    && forall f :: f in now.live ==>
      now.live[f] == if f in d.staged && f !in now.staged then d.staged[f] else d.live[f]
  }

  lemma OneMore(d: Disk, now: Disk, f: string)
    requires PartlyCommitted(d, now) && f in now.staged && Editable(d)
    ensures var next := now.(live := now.live[f := now.staged[f]], staged := now.staged - {f});
      PartlyCommitted(d, next) && Editable(next) && |next.staged| < |now.staged|
  {
    var next := now.staged - {f};
    assert next.Keys == now.staged.Keys - {f};
    assert |next.Keys| == |now.staged.Keys| - 1;
  }

  lemma PartIsBetween(d: Disk, now: Disk)
    requires PartlyCommitted(d, now) && Editable(d)
    ensures Between(d.live, d.staged, now.live)
    ensures now.staged == map[] ==> now.live == d.live + d.staged
  {
  }

  lemma NothingCommitted(d: Disk)
    ensures PartlyCommitted(d, d)
  {
  }

  lemma AllBetween(d: Disk, history: seq<Disk>, from: nat, now: Disk)
    requires forall i :: from <= i < |history| ==> PartlyCommitted(d, history[i])
    requires PartlyCommitted(d, now) && Editable(d)
    ensures forall i :: from <= i < |history| ==>
      history[i].(live := d.live, staged := d.staged) == d && Between(d.live, d.staged, history[i].live)
    ensures now == d.(live := now.live, staged := now.staged) && now.live.Keys == d.live.Keys
    ensures Between(d.live, d.staged, now.live) && (now.staged == map[] ==> now.live == d.live + d.staged)
  {
    PartIsBetween(d, now);
    forall i | from <= i < |history| ensures Between(d.live, d.staged, history[i].live) {
      PartIsBetween(d, history[i]);
    }
  }

  lemma SameIsBetween(a: Config, b: Config)
    ensures Between(a, b, a)
  {
  }

  class Device {
    var disk: Disk
    /** Every state the disk has been in, oldest first. */
    ghost var history: seq<Disk>
    /** How often something asked of the device has failed. */
    ghost var faults: nat
    /** How often it was the replacing of a single file. */
    ghost var unwritten: nat
    /** The files as the services last took them up. */
    ghost var told: Config

    ghost predicate Valid()
      reads this
    {
      && Editable(disk) && history != [] && history[|history| - 1] == disk
      && (forall i :: 0 <= i < |history| ==> Editable(history[i]))
    }

    constructor (live: Config)
      ensures Valid() && disk == Disk(live, map[], map[], None) && history == [disk] && faults == unwritten == 0
    {
      disk := Disk(live, map[], map[], None);
      history, faults, unwritten, told := [disk], 0, 0, live;
    }

    /** One thing asked of the device, which may fail. */
    method Try() returns (ok: bool)
      modifies this`faults
      ensures faults == if ok then old(faults) else old(faults) + 1
      ensures Valid() == old(Valid())
    {
      ok := *;
      if !ok {
        faults := faults + 1;
      }
    }

    /** `reload_config`: the services take up the files in force; some may have
        when it fails. */
    method Reload() returns (ok: bool)
      modifies this`told, this`faults
      ensures faults == if ok then old(faults) else old(faults) + 1
      ensures ok ==> told == disk.live
      ensures Valid() == old(Valid())
    {
      ok := Try();
      told := *;
      if ok {
        told := disk.live;
      }
    }

    /** Keeps the newest archives, removing from the oldest on. */
    method Prune() returns (ok: bool)
      requires Valid()
      modifies this`disk, this`history, this`faults
      ensures Valid() && |old(history)| <= |history| && history[..|old(history)|] == old(history)
      ensures forall i :: |old(history)| <= i < |history| ==> OnlyArchives(old(disk), history[i])
      ensures OnlyArchives(old(disk), disk)
      ensures ok ==> disk.snapshots == Pruned(old(disk).snapshots)
      ensures faults >= old(faults) && (ok <==> faults == old(faults))
      ensures forall id :: id in Pruned(old(disk).snapshots) ==>
        id in disk.snapshots && disk.snapshots[id] == Pruned(old(disk).snapshots)[id]
    {
      hide Pruned, OldestGone;
      ghost var before := disk.snapshots;
      NothingGone(before);
      while |disk.snapshots| > KEEP
        invariant Valid() && |old(history)| <= |history| && history[..|old(history)|] == old(history)
        invariant forall i :: |old(history)| <= i < |history| ==> OnlyArchives(old(disk), history[i])
        invariant OnlyArchives(old(disk), disk) && OldestGone(before, disk.snapshots) && faults == old(faults)
        decreases |disk.snapshots|
      {
        var oldest := Oldest(disk.snapshots.Keys);
        var removed := Try();
        if !removed {
          NothingNewLost(before, disk.snapshots);
          return false;
        }
        OneMoreGone(before, disk.snapshots, oldest);
        disk := disk.(snapshots := disk.snapshots - {oldest});
        Note();
      }
      NothingNewLost(before, disk.snapshots);
      ok := true;
    }

    /** The disk as a process finds it at its start. */
    constructor Found(disk: Disk)
      requires Editable(disk)
      ensures Valid() && this.disk == disk && history == [disk] && faults == unwritten == 0
    {
      this.disk := disk;
      history, faults, unwritten, told := [disk], 0, 0, disk.live;
    }

    ghost method Note()
      requires Editable(disk) && forall i :: 0 <= i < |history| ==> Editable(history[i])
      modifies this`history
      ensures Valid() && history == old(history) + [disk]
    {
      history := history + [disk];
    }

    /** Files edited in the staging area; nothing in force changes. */
    method Stage(edits: Config)
      requires Valid() && edits.Keys <= disk.live.Keys
      modifies this`disk, this`history, this`faults
      ensures Valid() && disk == old(disk).(staged := old(disk).staged + edits)
      ensures history == old(history) + [disk] && faults == old(faults)
    {
      disk := disk.(staged := disk.staged + edits);
      Note();
    }

    /** Captures the files in force, and keeps the archive if it can: failing to
        persist is not failing. `now` is the clock's second. */
    method TakeSnapshot(now: Id) returns (taken: Option<Snapshot>, ghost persisted: bool)
      requires Valid()
      modifies this`disk, this`history, this`faults
      ensures Valid() && |old(history)| < |history| && history[..|old(history)|] == old(history)
      ensures forall i :: |old(history)| <= i < |history| ==> OnlyArchives(old(disk), history[i])
      ensures OnlyArchives(old(disk), disk)
      ensures taken.Some? ==> taken.value == Snapshot(now, disk.live)
      ensures taken.None? ==> disk == old(disk) && !persisted
      ensures persisted ==> disk.snapshots == Pruned(old(disk).snapshots[now := disk.live])
      ensures faults >= old(faults) && (taken.Some? && persisted <==> faults == old(faults))
    {
      taken, persisted := None, false;
      var done := Try(); // the files packed
      if done {
        taken := Some(Snapshot(now, disk.live));
        done := Try(); // and kept
      }
      if done {
        disk := disk.(snapshots := disk.snapshots[now := disk.live]);
        Note();
        var pruned := Prune();
        persisted := pruned;
      } else {
        Note();
      }
    }

    /** Makes the draft live, one file at a time; it may stop at any of them, or
        fail only in telling the services. */
    method Commit() returns (ok: bool)
      requires Valid()
      modifies this`disk, this`history, this`faults, this`told
      ensures Valid() && |old(history)| <= |history| && history[..|old(history)|] == old(history)
      ensures forall i :: |old(history)| <= i < |history| ==>
        history[i].(live := old(disk).live, staged := old(disk).staged) == old(disk)
        && Between(old(disk).live, old(disk).staged, history[i].live)
      ensures disk == old(disk).(live := disk.live, staged := disk.staged) && disk.live.Keys == old(disk).live.Keys
      ensures Between(old(disk).live, old(disk).staged, disk.live)
      ensures ok ==> disk.live == old(disk).live + old(disk).staged && disk.staged == map[]
      ensures ok ==> told == disk.live
      ensures faults >= old(faults) && (ok <==> faults == old(faults))
    {
      hide Between, PartlyCommitted;
      ghost var d := disk;
      assert PartlyCommitted(d, d) by {
        NothingCommitted(d);
      }
      while disk.staged != map[]
        invariant Valid() && |old(history)| <= |history| && history[..|old(history)|] == old(history)
        invariant forall i :: |old(history)| <= i < |history| ==> PartlyCommitted(d, history[i])
        invariant PartlyCommitted(d, disk) && faults == old(faults)
        decreases |disk.staged|
      {
        var goes := Try();
        if !goes {
          AllBetween(d, history, |old(history)|, disk);
          return false;
        }
        var f :| f in disk.staged;
        OneMore(d, disk, f);
        disk := disk.(live := disk.live[f := disk.staged[f]], staged := disk.staged - {f});
        Note();
      }
      AllBetween(d, history, |old(history)|, disk);
      ok := Reload();
    }

    /** Discards the draft, package by package. */
    method DropStaged() returns (ok: bool)
      requires Valid()
      modifies this`disk, this`history, this`faults
      ensures Valid() && |old(history)| <= |history| && history[..|old(history)|] == old(history)
      ensures forall i :: |old(history)| <= i < |history| ==> history[i].(staged := old(disk).staged) == old(disk)
      ensures disk == old(disk).(staged := disk.staged) && disk.staged.Keys <= old(disk).staged.Keys
      ensures ok ==> disk.staged == map[]
      ensures faults >= old(faults) && (ok <==> faults == old(faults))
    {
      while disk.staged != map[]
        invariant Valid() && |old(history)| <= |history| && history[..|old(history)|] == old(history)
        invariant forall i :: |old(history)| <= i < |history| ==> history[i].(staged := old(disk).staged) == old(disk)
        invariant disk == old(disk).(staged := disk.staged) && disk.staged.Keys <= old(disk).staged.Keys && faults == old(faults)
        decreases |disk.staged|
      {
        var goes := Try();
        if !goes {
          return false;
        }
        var f :| f in disk.staged;
        ghost var was := disk.staged;
        disk := disk.(staged := disk.staged - {f});
        assert disk.staged.Keys == was.Keys - {f};
        assert |disk.staged.Keys| == |was.Keys| - 1;
        Note();
      }
      ok := true;
    }

    /** Unpacks an archive over the files in force, one file at a time. */
    method Unpack(payload: Config) returns (ok: bool)
      requires Valid()
      modifies this`disk, this`history, this`faults
      ensures Valid() && |old(history)| <= |history| && history[..|old(history)|] == old(history)
      ensures forall i :: |old(history)| <= i < |history| ==>
        history[i].(live := old(disk).live) == old(disk) && Between(old(disk).live, payload, history[i].live)
      ensures disk == old(disk).(live := disk.live) && Between(old(disk).live, payload, disk.live)
      ensures ok ==> disk.live == old(disk).live + payload
      ensures faults >= old(faults) && (ok <==> faults == old(faults))
    {
      var left := payload.Keys;
      while left != {}
        invariant Valid() && |old(history)| <= |history| && history[..|old(history)|] == old(history)
        invariant forall i :: |old(history)| <= i < |history| ==>
          history[i].(live := old(disk).live) == old(disk) && Between(old(disk).live, payload, history[i].live)
        invariant disk == old(disk).(live := disk.live) && Between(old(disk).live, payload, disk.live) && faults == old(faults)
        invariant left <= payload.Keys && forall f :: f in payload && f !in left ==> f in disk.live && disk.live[f] == payload[f]
        decreases left
      {
        var goes := Try();
        if !goes {
          return false;
        }
        var f :| f in left;
        disk, left := disk.(live := disk.live[f := payload[f]]), left - {f};
        Note();
      }
      assert disk.live == old(disk).live + payload;
      ok := true;
    }

    /** Restores a snapshot: the draft goes, the files come back, the services
        are told. Any of the three may fail. */
    method Revert(payload: Config) returns (ok: bool)
      requires Valid()
      modifies this`disk, this`history, this`faults, this`told
      ensures Valid() && |old(history)| <= |history| && history[..|old(history)|] == old(history)
      ensures forall i :: |old(history)| <= i < |history| ==>
        history[i].(live := old(disk).live, staged := old(disk).staged) == old(disk)
        && Between(old(disk).live, payload, history[i].live)
      ensures disk == old(disk).(live := disk.live, staged := disk.staged) && Between(old(disk).live, payload, disk.live)
      ensures forall i :: |old(history)| <= i < |history| ==> history[i].live == old(disk).live || history[i].staged == map[]
      ensures ok ==> disk.live == old(disk).live + payload && disk.staged == map[]
      ensures ok ==> told == disk.live
      ensures faults >= old(faults) && (ok <==> faults == old(faults))
    {
      hide Between;
      SameIsBetween(disk.live, payload);
      ok := DropStaged();
      if ok {
        ok := Unpack(payload);
      }
      if ok {
        ok := Reload();
      }
    }

    /** One file replaced, so that a power cut leaves the old one or the new. */
    method WriteFile(f: string, content: string) returns (ok: bool)
      requires Valid()
      modifies this`disk, this`history, this`faults, this`unwritten
      ensures Valid() && history == old(history) + [disk]
      ensures disk == if ok then old(disk).(live := old(disk).live[f := content]) else old(disk)
      ensures faults >= old(faults) && (ok <==> faults == old(faults))
      ensures unwritten == if ok then old(unwritten) else old(unwritten) + 1
    {
      ok := Try();
      if ok {
        disk := disk.(live := disk.live[f := content]);
      } else {
        unwritten := unwritten + 1;
      }
      Note();
    }

    /** The record is replaced whole, by renaming a complete file over it. */
    method Save(r: Record) returns (ok: bool)
      requires Valid()
      modifies this`disk, this`history, this`faults
      ensures Valid() && history == old(history) + [disk]
      ensures disk == if ok then old(disk).(journal := Some(r)) else old(disk)
      ensures faults >= old(faults) && (ok <==> faults == old(faults))
    {
      ok := Try();
      if ok {
        disk := disk.(journal := Some(r));
      }
      Note();
    }

    method Clear() returns (ok: bool)
      requires Valid()
      modifies this`disk, this`history, this`faults
      ensures Valid() && history == old(history) + [disk]
      ensures disk == if ok then old(disk).(journal := None) else old(disk)
      ensures faults >= old(faults) && (ok <==> faults == old(faults))
    {
      ok := Try();
      if ok {
        disk := disk.(journal := None);
      }
      Note();
    }
  }

  /** Only archives older than all that are left have been removed. */
  ghost predicate OldestGone(before: map<Id, Config>, now: map<Id, Config>) {
    && (forall id :: id in now ==> id in before && now[id] == before[id])
    && (forall id, kept :: id in before && id !in now && kept in now ==> id < kept)
    && (now == before || |now| >= KEEP)
  }

  lemma NothingGone(before: map<Id, Config>)
    ensures OldestGone(before, before)
  {
  }

  lemma OneMoreGone(before: map<Id, Config>, now: map<Id, Config>, oldest: Id)
    requires OldestGone(before, now) && |now| > KEEP && oldest in now && forall x :: x in now ==> oldest <= x
    ensures OldestGone(before, now - {oldest}) && |now - {oldest}| == |now| - 1
  {
    var left := now - {oldest};
    assert left.Keys == now.Keys - {oldest};
    assert |left.Keys| == |now.Keys| - 1;
  }

  lemma NothingNewLost(before: map<Id, Config>, now: map<Id, Config>)
    requires OldestGone(before, now)
    ensures forall id :: id in Pruned(before) ==> id in now && now[id] == before[id] == Pruned(before)[id]
    ensures |now| <= KEEP ==> now == Pruned(before)
  {
    forall id | id in before
      ensures |Above(before.Keys, id)| < KEEP ==> id in now
      ensures |now| <= KEEP && id in now ==> |Above(before.Keys, id)| < KEEP
    {
      NewerThan(before, now, id);
    }
    hide Above;
  }

  lemma NewerThan(before: map<Id, Config>, now: map<Id, Config>, id: Id)
    requires OldestGone(before, now) && id in before
    ensures |Above(before.Keys, id)| < KEEP ==> id in now
    ensures |now| <= KEEP && id in now ==> |Above(before.Keys, id)| < KEEP
  {
    if id in now {
      assert Above(before.Keys, id) <= now.Keys - {id};
      SubsetSize(Above(before.Keys, id), now.Keys - {id});
    } else {
      assert now.Keys <= Above(before.Keys, id);
      SubsetSize(now.Keys, Above(before.Keys, id));
    }
  }

  /** The newest five archives stay, or all there are. */
  lemma NewestFive(snapshots: map<Id, Config>)
    ensures |Pruned(snapshots)| == if |snapshots| <= 5 then |snapshots| else 5
    ensures forall id, gone :: id in Pruned(snapshots) && gone in snapshots && gone !in Pruned(snapshots) ==> gone < id
    ensures forall id :: id in Pruned(snapshots) ==> id in snapshots && Pruned(snapshots)[id] == snapshots[id]
  {
    NothingGone(snapshots);
    FewLeft(snapshots, snapshots);
  }

  lemma {:induction false} FewLeft(before: map<Id, Config>, now: map<Id, Config>)
    requires OldestGone(before, now)
    ensures OldestGone(before, Pruned(before)) && |Pruned(before)| == if |before| <= KEEP then |before| else KEEP
    decreases |now|
  {
    NothingNewLost(before, now);
    if |now| > KEEP {
      var oldest := Least(now.Keys);
      OneMoreGone(before, now, oldest);
      FewLeft(before, now - {oldest});
    } else {
      assert |now| <= |before| by {
        assert now.Keys <= before.Keys;
        SubsetSize(now.Keys, before.Keys);
      }
    }
  }

  lemma Least(ids: set<Id>) returns (least: Id)
    requires ids != {}
    ensures least in ids && forall x :: x in ids ==> least <= x
  {
    least :| least in ids;
    var start := least;
    var below := set x | x in ids && x < start;
    assert forall x :: x in ids ==> x in below || start <= x;
    if below != {} {
      assert below < ids by { assert start in ids && start !in below; }
      least := Least(below);
    }
  }

  method Oldest(ids: set<Id>) returns (least: Id)
    requires ids != {}
    ensures least in ids && forall x :: x in ids ==> least <= x
  {
    least :| least in ids;
    var left := ids - {least};
    while left != {}
      invariant left <= ids && least in ids
      invariant forall x :: x in ids && x !in left ==> least <= x
      decreases left
    {
      var x :| x in left;
      if x < least {
        least := x;
      }
      left := left - {x};
    }
  }
}
