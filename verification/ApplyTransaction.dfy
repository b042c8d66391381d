/** The apply transaction: snapshot, commit, and then either a person confirms
    or everything is put back (internal/core/apply.go). */
module ApplyTransaction {
  import opened Outcomes
  import opened Configuration

  datatype Phase = Idle | AwaitingConfirm | Confirmed | Reverted | RevertFailed

  datatype Refusal = InFlight | NoneInFlight | WrongToken | Failed

  /** The clock has not moved past the newest archive. */
  predicate Stale(d: Disk, now: Id) {
    exists id :: id in d.snapshots && id >= now
  }

  /** What is on record names no archive there is. */
  predicate Dangling(d: Disk) {
    d.journal.Some? && d.journal.value.snapshot !in d.snapshots
  }

  /** The record names a kept archive of the good configuration. */
  predicate OnRecord(d: Disk, r: Record, good: Config) {
    d.journal == Some(r) && r.snapshot in d.snapshots && d.snapshots[r.snapshot] == good
  }

  ghost predicate Continues(past: seq<Disk>, now: seq<Disk>) {
    |past| <= |now| && now[..|past|] == past
  }

  /** What a restart needs to find: the good files in force and nothing on
      record, or a record whose archive brings them back. */
  predicate Recoverable(d: Disk, good: Config, journalled: bool) {
    && d.live.Keys == good.Keys
    && match d.journal
       case None => d.live == good
       case Some(r) => journalled && OnRecord(d, r, good)
  }

  /** The process may go away in any of these states: `CrashAndRecover` brings
      the good files back from each. */
  ghost predicate CrashSafe(history: seq<Disk>, from: nat, good: Config, journalled: bool) {
    forall i :: from <= i < |history| ==> Recoverable(history[i], good, journalled)
  }

  /** The one gap: files being committed while no record is saved yet. */
  predicate NotYetOnRecord(before: Disk, d: Disk) {
    d.journal.None? && Between(before.live, before.staged, d.live)
  }

  ghost predicate AllNotYetOnRecord(before: Disk, history: seq<Disk>, from: nat) {
    forall i :: from <= i < |history| ==> NotYetOnRecord(before, history[i])
  }

  lemma MoreNotYetOnRecord(before: Disk, past: seq<Disk>, now: seq<Disk>, from: nat)
    requires before.journal.None? && from <= |past| && Continues(past, now)
    requires AllNotYetOnRecord(before, past, from)
    requires forall i :: |past| <= i < |now| ==> now[i].journal.None? && Between(before.live, before.staged, now[i].live)
    ensures AllNotYetOnRecord(before, now, from)
  {
    assert forall i :: from <= i < |past| ==> now[..|past|][i] == now[i];
  }

  lemma NoneYet(before: Disk, history: seq<Disk>, from: nat)
    requires from == |history|
    ensures AllNotYetOnRecord(before, history, from)
  {
  }

  lemma StagedFirst(before: Disk, past: seq<Disk>, now: seq<Disk>)
    requires before.journal.None? && Continues(past + [before], now)
    requires AllNotYetOnRecord(before, now, |past| + 1)
    ensures AllNotYetOnRecord(before, now, |past|)
  {
    assert now[..|past| + 1][|past|] == before;
    SameIsBetween(before.live, before.staged);
  }

  /** One of these states has these files in force and this on record. */
  ghost predicate PassesThrough(history: seq<Disk>, from: nat, live: Config, journal: Option<Record>) {
    exists i :: from <= i < |history| && history[i].live == live && history[i].journal == journal
  }

  class ApplyCoordinator {
    const device: Device
    /** Without a journal a transaction does not survive the daemon. */
    const journalled: bool
    var phase: Phase
    var token: Option<nat>
    var deadline: Option<nat>
    var window: nat
    var snapshot: Option<Snapshot>
    var lastSnapshot: Option<Id>
    var watchdog: Option<nat>
    /** Every token handed out so far is smaller. */
    var nextToken: nat

    /** The configuration last confirmed by a person, or applied for good. */
    ghost var good: Config
    /** Something the transaction relies on has failed: a revert, an archive
        that was not kept, the journal, or a clock that did not move on. */
    ghost var trouble: bool

    ghost predicate Valid()
      reads this, device
    {
      && device.Valid()
      && (token.Some? <==> phase == AwaitingConfirm) && (deadline.Some? <==> phase == AwaitingConfirm)
      && (token.Some? ==> token.value < nextToken)
      && (phase == AwaitingConfirm ==> snapshot.Some? && lastSnapshot == Some(snapshot.value.id))
      && (!trouble ==> Restorable())
    }

    /** Outside the confirmation window the files in force are the good ones;
        inside it both the snapshot in memory and the one on record bring them
        back. */
    ghost predicate Restorable()
      reads this, device
    {
      && device.disk.live.Keys == good.Keys
      && if phase == AwaitingConfirm then
          && snapshot.Some? && snapshot.value.payload == good
          && (if journalled then token.Some? && OnRecord(device.disk, Record(snapshot.value.id, token.value), good)
              else device.disk.journal.None?)
        else device.disk.live == good && device.disk.journal.None?
    }

    /** A coordinator in a new process, over the disk an earlier one left. */
    ghost predicate Restarted()
      reads this, device
    {
      && device.Valid() && phase == Idle && token.None? && deadline.None? && snapshot.None? && watchdog.None?
      && (!trouble ==> Recoverable(device.disk, good, journalled))
    }

    constructor (device: Device, journalled: bool)
      requires device.Valid() && device.disk.journal.None?
      ensures Valid() && fresh(this) && this.device == device && this.journalled == journalled
      ensures phase == Idle && good == device.disk.live && !trouble
    {
      this.device, this.journalled := device, journalled;
      phase, token, deadline, window, snapshot := Idle, None, None, 0, None;
      lastSnapshot, watchdog, nextToken := None, None, 0;
      good, trouble := device.disk.live, false;
    }

    /** A process starting over what another one left on disk. */
    constructor AtStart(device: Device, journalled: bool, ghost good: Config)
      requires device.Valid()
      ensures Restarted() && fresh(this) && this.device == device && this.journalled == journalled && this.good == good
      ensures trouble == !Recoverable(device.disk, good, journalled)
    {
      this.device, this.journalled := device, journalled;
      phase, token, deadline, window, snapshot := Idle, None, None, 0, None;
      lastSnapshot, watchdog, nextToken := None, None, 0;
      this.good, trouble := good, !Recoverable(device.disk, good, journalled);
    }

    /** `clearJournalLocked`: a stale record would undo a confirmed change. */
    method ClearJournal()
      requires device.Valid()
      modifies this`trouble, device
      ensures device.Valid() && Continues(old(device.history), device.history)
      ensures !trouble ==> !old(trouble)
      ensures device.faults >= old(device.faults) && (trouble <==> old(trouble) || device.faults > old(device.faults))
      ensures device.faults == old(device.faults) && journalled ==> device.disk == old(device.disk).(journal := None)
      ensures !journalled ==> device.disk == old(device.disk)
      ensures device.told == old(device.told)
      ensures forall i :: |old(device.history)| <= i < |device.history| ==>
        device.history[i] == device.disk && device.disk == old(device.disk).(journal := device.disk.journal)
      ensures device.disk.journal == old(device.disk).journal || device.disk.journal.None?
    {
      if journalled {
        var ok := device.Clear();
        trouble := trouble || !ok;
      }
    }

    /** The snapshot before a change. `now` is the clock's second. */
    method Capture(now: Id) returns (taken: Option<Snapshot>)
      requires device.Valid()
      modifies this`lastSnapshot, this`trouble, device
      ensures device.Valid() && Continues(old(device.history), device.history) && |old(device.history)| < |device.history|
      ensures forall i :: |old(device.history)| <= i < |device.history| ==> OnlyArchives(old(device.disk), device.history[i])
      ensures device.disk == old(device.disk).(snapshots := device.disk.snapshots)
      ensures device.told == old(device.told)
      ensures !trouble ==> !old(trouble)
      ensures taken.None? ==> device.disk == old(device.disk) && trouble == old(trouble) && lastSnapshot == old(lastSnapshot)
      ensures taken.Some? ==> taken == Some(Snapshot(now, device.disk.live)) && lastSnapshot == Some(now)
      ensures device.faults >= old(device.faults) && (device.faults == old(device.faults) ==> taken.Some?)
      ensures trouble ==> old(trouble) || device.faults > old(device.faults) || Stale(old(device.disk), now)
      ensures taken.Some? && !trouble ==> now in device.disk.snapshots && device.disk.snapshots[now] == device.disk.live
    {
      var stale := Stale(device.disk, now);
      ghost var kept := device.disk.snapshots;
      ghost var persisted;
      taken, persisted := device.TakeSnapshot(now);
      if taken.Some? {
        lastSnapshot := Some(now);
        trouble := trouble || stale || !persisted;
        PrunedKeeps(kept, now, device.disk.live);
        assert !stale ==> Above(kept.Keys, now) == {};
      }
    }

    /** Commits, or puts the snapshot back at once. */
    method CommitOrRestore(snap: Snapshot) returns (committed: bool)
      requires device.Valid() && snap.payload == device.disk.live
      modifies this`phase, this`trouble, device
      ensures device.Valid() && Continues(old(device.history), device.history)
      ensures device.disk == old(device.disk).(live := device.disk.live, staged := device.disk.staged)
      ensures device.disk.live.Keys == old(device.disk).live.Keys
      ensures !trouble ==> !old(trouble)
      ensures committed ==> phase == old(phase) && trouble == old(trouble) && device.disk.staged == map[]
      ensures committed ==> device.disk.live == old(device.disk).live + old(device.disk).staged
      ensures committed || phase == Reverted ==> device.told == device.disk.live
      ensures !committed ==> phase == Reverted || (phase == RevertFailed && trouble)
      ensures device.faults >= old(device.faults) && (committed <==> device.faults == old(device.faults))
      ensures device.faults == old(device.faults) + 1 ==> phase == Reverted
      ensures trouble ==> old(trouble) || device.faults > old(device.faults)
      ensures phase == Reverted && !committed ==> device.disk.live == snap.payload && device.disk.staged == map[]
      ensures forall i :: |old(device.history)| <= i < |device.history| ==>
        device.history[i].journal == old(device.disk).journal
        && Between(old(device.disk).live, old(device.disk).staged, device.history[i].live)
    {
      committed := device.Commit();
      if !committed {
        var reverted := device.Revert(snap.payload);
        phase := if reverted then Reverted else RevertFailed;
        trouble := trouble || !reverted;
        assert reverted ==> device.disk.live == snap.payload;
      }
    }

    /** The record of a change awaiting confirmation, with its watchdog. Saved
        after the commit, so a failure here is reported, not refused. */
    method Await(snap: Snapshot, timeout: nat, now: Id)
      requires device.Valid() && lastSnapshot == Some(snap.id)
      modifies this`phase, this`token, this`snapshot, this`deadline, this`window, this`nextToken, this`watchdog, this`trouble, device
      ensures device.Valid() && Continues(old(device.history), device.history)
      ensures phase == AwaitingConfirm && token == watchdog == Some(old(nextToken)) && nextToken == old(nextToken) + 1
      ensures snapshot == Some(snap) && deadline == Some(now + timeout) && window == timeout
      ensures !trouble ==> !old(trouble)
      ensures device.faults >= old(device.faults) && (trouble <==> old(trouble) || device.faults > old(device.faults))
      ensures device.faults == old(device.faults) && journalled ==>
        device.disk == old(device.disk).(journal := Some(Record(snap.id, old(nextToken))))
      ensures !journalled ==> device.disk == old(device.disk)
      ensures device.told == old(device.told)
      ensures device.disk == old(device.disk).(journal := device.disk.journal)
      ensures forall i :: |old(device.history)| <= i < |device.history| ==> device.history[i] == device.disk
    {
      phase, token, snapshot := AwaitingConfirm, Some(nextToken), Some(snap);
      deadline, window := Some(now + timeout), timeout;
      nextToken := nextToken + 1;
      if journalled {
        var saved := device.Save(Record(snap.id, token.value));
        trouble := trouble || !saved;
      }
      watchdog := token;
    }

    /** Snapshot first, then commit, then the record and the watchdog. A crash
        in between is undone at the next start, but for one gap: files already
        committed while the record is not yet saved. */
    method Apply(timeout: nat, now: Id) returns (r: Result<nat, Refusal>)
      requires Valid()
      modifies this, device
      ensures Valid() && good == old(good) && Continues(old(device.history), device.history)
      ensures !trouble ==> !old(trouble)
      ensures old(phase) == AwaitingConfirm ==> r == Err(InFlight) && unchanged(this) && unchanged(device)
      ensures old(phase) != AwaitingConfirm ==> (r.Ok? <==> phase == AwaitingConfirm)
      ensures r.Ok? ==> token == Some(r.value) && r.value == old(nextToken) && nextToken > r.value
      ensures r.Ok? ==> deadline == Some(now + timeout) && watchdog == token
      ensures r.Ok? ==> snapshot == Some(Snapshot(now, old(device.disk).live)) && device.disk.staged == map[]
      ensures r.Ok? ==> device.disk.live == old(device.disk).live + old(device.disk).staged
      ensures r.Ok? ==> device.told == device.disk.live
      ensures r == Err(Failed) && !trouble ==> device.disk.live == old(device.disk).live
      ensures device.faults >= old(device.faults) && (r == Err(Failed) ==> device.faults > old(device.faults))
      ensures r == Err(Failed) && device.faults == old(device.faults) + 1 ==> device.disk.live == old(device.disk).live
      ensures r.Ok? && journalled && device.faults == old(device.faults) ==> device.disk.journal == Some(Record(now, r.value))
      ensures trouble ==> old(trouble) || device.faults > old(device.faults) || Stale(old(device.disk), now)
      ensures !trouble ==> forall i :: |old(device.history)| <= i < |device.history| ==>
        Recoverable(device.history[i], good, journalled) || NotYetOnRecord(old(device.disk), device.history[i])
      ensures r.Ok? ==>
        PassesThrough(device.history, |old(device.history)|, old(device.disk).live + old(device.disk).staged, old(device.disk).journal)
    {
      hide Stale, Between, Editable;
      if phase == AwaitingConfirm {
        return Err(InFlight);
      }
      var taken := Capture(now);
      if taken.None? {
        phase := Idle;
        return Err(Failed);
      }
      var snap := taken.value;
      var committed := CommitOrRestore(snap);
      if !committed {
        snapshot := Some(snap);
        return Err(Failed);
      }
      ghost var k, past := |device.history| - 1, device.history;
      Await(snap, timeout, now);
      assert device.history[..|past|][k] == device.history[k];
      r := Ok(token.value);
    }

    /** Somebody could still reach the panel: the change stays for good. */
    method Confirm(given: Option<nat>) returns (r: Result<(), Refusal>)
      requires Valid()
      modifies this, device
      ensures Valid() && (!trouble ==> !old(trouble))
      ensures old(phase) != AwaitingConfirm ==> r == Err(NoneInFlight) && unchanged(this) && unchanged(device)
      ensures old(phase) == AwaitingConfirm && given != old(token) ==> r == Err(WrongToken) && unchanged(this) && unchanged(device)
      ensures old(phase) == AwaitingConfirm && given == old(token) ==> r.Ok? && phase == Confirmed
      ensures r.Ok? ==> good == device.disk.live == old(device.disk).live && token.None? && watchdog.None?
      ensures device.told == old(device.told)
      ensures device.faults >= old(device.faults) && (trouble <==> old(trouble) || device.faults > old(device.faults))
      ensures r.Ok? && journalled && device.faults == old(device.faults) ==> device.disk.journal.None?
      ensures r.Ok? && !trouble ==> CrashSafe(device.history, |old(device.history)|, good, journalled)
    {
      if phase != AwaitingConfirm {
        return Err(NoneInFlight);
      }
      if given != token {
        return Err(WrongToken);
      }
      watchdog, phase, token, deadline, snapshot := None, Confirmed, None, None, None;
      good := device.disk.live;
      ClearJournal();
      r := Ok(());
    }

    /** Puts the snapshot back. Should that fail, the record stays, and every
        state on the way is one a restart still recovers from. */
    method RevertPending() returns (ok: bool)
      requires Valid() && phase == AwaitingConfirm
      modifies this`phase, this`token, this`deadline, this`snapshot, this`trouble, device
      ensures Valid() && (!trouble ==> !old(trouble)) && Continues(old(device.history), device.history)
      ensures phase == if ok then Reverted else RevertFailed
      ensures !ok ==> trouble && device.disk.journal == old(device.disk).journal
      ensures device.faults >= old(device.faults) && (!ok ==> device.faults > old(device.faults))
      ensures trouble <==> old(trouble) || device.faults > old(device.faults)
      ensures ok ==> device.disk.live == old(device.disk).live + old(snapshot).value.payload && device.disk.staged == map[]
      ensures ok ==> device.told == device.disk.live
      ensures journalled && device.faults == old(device.faults) ==> device.disk.journal.None?
      ensures ok && !old(trouble) ==> device.disk.live == good && device.disk.staged == map[]
      ensures !old(trouble) && journalled ==> CrashSafe(device.history, |old(device.history)|, good, journalled)
    {
      ghost var safe := !trouble && journalled;
      var snap := snapshot.value;
      ghost var record := device.disk.journal;
      ok := device.Revert(snap.payload);
      token, deadline := None, None;
      if safe {
        StillOnRecord(old(device.disk), device.history, |old(device.history)|, record.value, good);
      }
      if !ok {
        phase, trouble := RevertFailed, true;
        return;
      }
      phase, snapshot := Reverted, None;
      assert !trouble ==> device.disk.live == good;
      ghost var reverted := device.disk;
      ClearJournal();
    }

    /** The undo button. */
    method Revert() returns (r: Result<(), Refusal>)
      requires Valid()
      modifies this`phase, this`token, this`deadline, this`snapshot, this`trouble, this`watchdog, device
      ensures Valid() && (!trouble ==> !old(trouble))
      ensures old(phase) != AwaitingConfirm ==> r == Err(NoneInFlight) && unchanged(this) && unchanged(device)
      ensures old(phase) == AwaitingConfirm ==> watchdog.None? && phase == if r.Ok? then Reverted else RevertFailed
      ensures r.Ok? && !old(trouble) ==> device.disk.live == good && device.disk.staged == map[]
      ensures r.Ok? ==> device.told == device.disk.live
      ensures device.faults >= old(device.faults) && (trouble <==> old(trouble) || device.faults > old(device.faults))
      ensures old(phase) == AwaitingConfirm && device.faults == old(device.faults) ==>
        r.Ok? && (journalled ==> device.disk.journal.None?)
      ensures old(phase) == AwaitingConfirm && !old(trouble) && journalled ==> CrashSafe(device.history, |old(device.history)|, good, journalled)
    {
      if phase != AwaitingConfirm {
        return Err(NoneInFlight);
      }
      watchdog := None;
      var ok := RevertPending();
      r := if ok then Ok(()) else Err(Failed);
    }

    /** The watchdog firing, however late. It carries the token of the change it
        was started for: the timer of any other changes nothing. */
    method AutoRevert(fired: nat)
      requires Valid()
      modifies this`phase, this`token, this`deadline, this`snapshot, this`trouble, this`watchdog, device
      ensures Valid() && (!trouble ==> !old(trouble))
      ensures old(token) != Some(fired) ==> unchanged(this) && unchanged(device)
      ensures old(token) == Some(fired) ==> phase == Reverted || (phase == RevertFailed && trouble)
      ensures old(token) == Some(fired) && phase == Reverted ==> device.told == device.disk.live
      ensures device.faults >= old(device.faults) && (trouble <==> old(trouble) || device.faults > old(device.faults))
      ensures old(token) == Some(fired) && device.faults == old(device.faults) ==>
        phase == Reverted && (journalled ==> device.disk.journal.None?)
      ensures old(token) == Some(fired) && !old(trouble) && phase == Reverted ==> device.disk.live == good
      ensures old(token) == Some(fired) && !old(trouble) && journalled ==> CrashSafe(device.history, |old(device.history)|, good, journalled)
    {
      if phase != AwaitingConfirm || token != Some(fired) {
        return;
      }
      watchdog := None;
      var ok := RevertPending();
    }

    /** Staging of many steps, never while a change awaits confirmation. */
    method Stage(edits: Config) returns (r: Result<(), Refusal>)
      requires Valid() && edits.Keys <= device.disk.live.Keys
      modifies device
      ensures Valid()
      ensures phase == AwaitingConfirm ==> r == Err(InFlight) && unchanged(device)
      ensures phase != AwaitingConfirm ==> r.Ok? && device.disk == old(device.disk).(staged := old(device.disk).staged + edits)
    {
      if phase == AwaitingConfirm {
        return Err(InFlight);
      }
      device.Stage(edits);
      r := Ok(());
    }

    /** The snapshot and the commit, or everything as it was. */
    method CommitAtOnce(now: Id) returns (committed: bool)
      requires device.Valid() && phase != AwaitingConfirm
      modifies this`phase, this`lastSnapshot, this`trouble, device
      ensures device.Valid() && Continues(old(device.history), device.history) && phase != AwaitingConfirm
      ensures device.disk.journal == old(device.disk).journal && device.disk.live.Keys == old(device.disk).live.Keys
      ensures !trouble ==> !old(trouble)
      ensures device.faults >= old(device.faults) && (device.faults == old(device.faults) ==> committed)
      ensures trouble ==> old(trouble) || device.faults > old(device.faults) || Stale(old(device.disk), now)
      ensures committed ==> device.disk.live == old(device.disk).live + old(device.disk).staged && device.disk.staged == map[]
      ensures committed ==> device.told == device.disk.live
      ensures !committed && (!trouble || device.faults <= old(device.faults) + 1) ==> device.disk.live == old(device.disk).live
      ensures old(device.disk).journal.None? ==> AllNotYetOnRecord(old(device.disk), device.history, |old(device.history)|)
    {
      hide Between, NotYetOnRecord, AllNotYetOnRecord, Stale;
      ghost var before, past := device.disk, device.history;
      NoneYet(before, past, |past|);
      SameIsBetween(before.live, before.staged);
      var taken := Capture(now);
      if before.journal.None? {
        MoreNotYetOnRecord(before, past, device.history, |past|);
      }
      if taken.None? {
        return false;
      }
      ghost var kept := device.history;
      committed := CommitOrRestore(taken.value);
      if before.journal.None? {
        MoreNotYetOnRecord(before, kept, device.history, |past|);
      }
    }

    /** Stages and commits in one step, for good; a failed commit is put back. */
    method ApplyNow(edits: Config, stages: bool, now: Id) returns (r: Result<(), Refusal>)
      requires Valid() && edits.Keys <= device.disk.live.Keys
      modifies this`phase, this`lastSnapshot, this`trouble, this`good, device
      ensures Valid() && (!trouble ==> !old(trouble))
      ensures old(phase) == AwaitingConfirm ==> r == Err(InFlight) && unchanged(this) && unchanged(device)
      ensures old(phase) != AwaitingConfirm ==> phase != AwaitingConfirm
      ensures r.Ok? ==> phase == Idle && stages && good == device.disk.live == old(device.disk).live + (old(device.disk).staged + edits)
      ensures r.Err? ==> good == old(good) && (!trouble ==> device.disk.live == old(device.disk).live)
      ensures r.Ok? ==> device.told == device.disk.live
      ensures device.faults >= old(device.faults) && (trouble ==> old(trouble) || device.faults > old(device.faults) || Stale(old(device.disk), now))
      ensures old(phase) != AwaitingConfirm && stages && device.faults == old(device.faults) ==> r.Ok?
      ensures r.Err? && device.faults <= old(device.faults) + 1 ==> device.disk.live == old(device.disk).live
      ensures Continues(old(device.history), device.history)
      ensures !trouble && old(phase) != AwaitingConfirm ==>
        AllNotYetOnRecord(old(device.disk).(staged := old(device.disk).staged + edits), device.history, |old(device.history)|)
    {
      hide Between, NotYetOnRecord, AllNotYetOnRecord, OnRecord;
      if phase == AwaitingConfirm {
        return Err(InFlight);
      }
      ghost var past := device.history;
      device.Stage(edits);
      if !stages {
        NoneYet(device.disk, device.history, |past| + 1);
        if device.disk.journal.None? {
          StagedFirst(device.disk, past, device.history);
        }
        return Err(Failed);
      }
      ghost var before := device.disk;
      var committed := CommitAtOnce(now);
      if before.journal.None? {
        StagedFirst(before, past, device.history);
      }
      if !committed {
        return Err(Failed);
      }
      phase := Idle;
      good := device.disk.live;
      r := Ok(());
    }

    /** The process is gone: what was in memory with it, timers included. */
    method Crash()
      requires Valid()
      modifies this
      ensures Restarted() && good == old(good) && (!trouble ==> !old(trouble))
      ensures journalled || old(phase) != AwaitingConfirm ==> trouble == old(trouble)
    {
      if phase == AwaitingConfirm && !journalled {
        trouble := true;
      }
      phase, token, deadline, snapshot, watchdog, lastSnapshot, window := Idle, None, None, None, None, None, 0;
    }

    /** At start: a change still awaiting confirmation is undone, its deadline
        passed or not. */
    method RecoverPending() returns (r: Result<bool, Refusal>)
      requires Restarted()
      modifies this`phase, this`lastSnapshot, this`trouble, device
      ensures Valid() && (!trouble ==> !old(trouble))
      ensures !trouble ==> r.Ok? && device.disk.live == good && device.disk.journal.None?
      ensures r == Ok(true) ==> old(device.disk).journal.Some? && phase == Reverted
      ensures r == Ok(true) ==> device.disk.live == Recovered(old(device.disk))
      ensures r == Ok(true) ==> device.told == device.disk.live
      ensures r == Ok(false) ==> device.disk == old(device.disk) && device.history == old(device.history) && phase == Idle
      ensures old(device.disk).journal.None? ==> device.disk == old(device.disk) && device.history == old(device.history)
      ensures device.faults >= old(device.faults)
      ensures trouble ==> old(trouble) || device.faults > old(device.faults) || Dangling(old(device.disk))
      ensures journalled && device.faults == old(device.faults) ==>
        if Dangling(old(device.disk)) then r.Err? && phase == RevertFailed
        else r == Ok(old(device.disk).journal.Some?) && device.disk.journal.None?
      ensures r.Ok? && journalled ==> r.value == old(device.disk).journal.Some?
      ensures Continues(old(device.history), device.history)
      ensures !old(trouble) ==> CrashSafe(device.history, |old(device.history)|, good, journalled)
    {
      hide Between, Device.Valid;
      if !journalled {
        return Ok(false);
      }
      var readable := device.Try();
      if !readable {
        trouble := true;
        return Err(Failed);
      }
      if device.disk.journal.None? {
        return Ok(false);
      }
      var record := device.disk.journal.value;
      lastSnapshot := Some(record.snapshot);
      var loads := device.Try();
      if !loads || record.snapshot !in device.disk.snapshots {
        phase, trouble := RevertFailed, true;
        return Err(Failed);
      }
      ghost var safe := !trouble;
      var ok := device.Revert(device.disk.snapshots[record.snapshot]);
      if safe {
        StillOnRecord(old(device.disk), device.history, |old(device.history)|, record, good);
      }
      if !ok {
        phase, trouble := RevertFailed, true;
        return Err(Failed);
      }
      assert !trouble ==> device.disk.live == good;
      var cleared := device.Clear();
      if !cleared {
        trouble := true;
        return Err(Failed);
      }
      phase := Reverted;
      r := Ok(true);
    }
  }

  /** Reverting never touches the record or the archive it names, so a restart
      in any of its states undoes the same change. */
  lemma StillOnRecord(d: Disk, history: seq<Disk>, from: nat, record: Record, good: Config)
    requires OnRecord(d, record, good) && d.live.Keys == good.Keys
    requires forall i :: from <= i < |history| ==>
      history[i].(live := d.live, staged := d.staged) == d && Between(d.live, good, history[i].live)
    ensures CrashSafe(history, from, good, true)
  {
    forall i | from <= i < |history| ensures Recoverable(history[i], good, true) {
      assert history[i].journal == d.journal && history[i].snapshots == d.snapshots;
    }
  }

  /** What is recoverable is what undoing the record recovers. */
  lemma RecoverableRecovers(d: Disk, good: Config, journalled: bool)
    requires Recoverable(d, good, journalled)
    ensures Recovered(d) == good
  {
  }

  /** In the gap nothing brings the old files back: they are back exactly if they
      never went. */
  lemma GapIsExact(before: Disk, d: Disk, journalled: bool)
    requires Editable(before) && NotYetOnRecord(before, d)
    ensures Recoverable(d, before.live, journalled) <==> d.live == before.live
    ensures Recovered(d) == before.live <==> d.live == before.live
  {
  }

  /** A disk in the gap. */
  lemma GapExample()
    ensures var before := Disk(map["network" := "as it was"], map["network" := "as drafted"], map[], None);
      var d := before.(live := before.live + before.staged, staged := map[]);
      Editable(before) && NotYetOnRecord(before, d) && !Recoverable(d, before.live, true) && Recovered(d) != before.live
  {
    var before := Disk(map["network" := "as it was"], map["network" := "as drafted"], map[], None);
    assert (before.live + before.staged)["network"] == "as drafted";
    assert "as it was"[3] != "as drafted"[3];
  }

  /** The process goes away in the middle of anything, leaving `d`, and starts
      again. From a recoverable disk the good files are in force, unless starting
      fails; and then, or should it go away once more, the disk is still
      recoverable. Without a record the disk stays as it is. */
  method CrashAndRecover(d: Disk, journalled: bool, ghost good: Config)
    returns (c: ApplyCoordinator, r: Result<bool, Refusal>)
    requires Editable(d)
    ensures c.Valid() && c.journalled == journalled && c.good == good
    ensures !c.trouble ==> r.Ok? && c.device.disk.live == good && c.device.disk.journal.None?
    ensures r.Ok? && journalled && d.journal.Some? ==> r == Ok(true) && c.device.disk.live == Recovered(d)
    ensures c.device.faults == 0 && Recoverable(d, good, journalled) ==> r.Ok? && c.device.disk.live == good && c.device.disk.journal.None?
    ensures d.journal.None? ==> c.device.disk == d
    ensures |c.device.history| > 0 && c.device.history[0] == d
    ensures Recoverable(d, good, journalled) ==> Recovered(d) == good && CrashSafe(c.device.history, 0, good, journalled)
  {
    var device := new Device.Found(d);
    c := new ApplyCoordinator.AtStart(device, journalled, good);
    ghost var past := device.history;
    r := c.RecoverPending();
    if Recoverable(d, good, journalled) {
      RecoverableRecovers(d, good, journalled);
    }
    assert c.device.history[..1] == past;
    assert c.device.history[..1][0] == d;
  }
}
