/** The device's vital signs, kept in fixed buffers (internal/metrics/metrics.go).
    A ring keeps the last samples it took and takes one only when enough time
    has passed since the one before. */
module MetricsHistory {
  datatype Sample = Sample(at: int, cpuPercent: real, memUsed: int, memTotal: int, storageUsed: int)

  /** The second that the clock's own "no time yet" stands for, at the start of
      the year 1. */
  const NO_TIME: int := -62135596800

  /** The samples a ring of this spacing takes out of those offered: the first,
      and each one far enough from the last taken. */
  function Taken(offered: seq<Sample>, every: int): seq<Sample> {
    if offered == [] then []
    else
      var before := Taken(offered[..|offered| - 1], every);
      var s := offered[|offered| - 1];
      if before != [] && before[|before| - 1].at != NO_TIME && s.at - before[|before| - 1].at < every then before
      else before + [s]
  }

  /** The last `n` of a sequence, or all of it. */
  function LastOf<T>(s: seq<T>, n: nat): seq<T> {
    if |s| <= n then s else s[|s| - n..]
  }

  /** Each sample is the spacing later than every one before it. */
  predicate Apart(samples: seq<Sample>, every: int) {
    forall i, j :: 0 <= i < j < |samples| ==> samples[j].at - samples[i].at >= every
  }

  /** The ring takes sample `k` of those offered. */
  predicate Took(offered: seq<Sample>, every: int, k: nat)
    requires k < |offered|
  {
    Taken(offered[..k + 1], every) != Taken(offered[..k], every)
  }

  /** After a sample taken at the second that reads as no time, none is offered
      too soon. */
  predicate NoneTooSoon(offered: seq<Sample>, every: int) {
    forall k :: 0 < k < |offered| && offered[k - 1].at == NO_TIME && Took(offered, every, k - 1) ==>
      offered[k].at - NO_TIME >= every
  }

  /** Under any clock, also one that steps back, the samples taken are the
      spacing apart, from each to every later one, exactly unless one is offered
      too soon after that one second. */
  lemma {:induction false} TakenApart(offered: seq<Sample>, every: int)
    requires every >= 0
    ensures Apart(Taken(offered, every), every) <==> NoneTooSoon(offered, every)
  {
    var n := |offered|;
    if n > 0 {
      var past, s := offered[..n - 1], offered[n - 1];
      TakenApart(past, every);
      OneMoreSoon(offered, every);
      hide NoneTooSoon, Apart;
      var before := Taken(past, every);
      if n > 1 {
        LastTaken(past, every);
        assert past[..n - 1] == offered[..n - 1] && past[..n - 2] == offered[..n - 2];
      }
      OneMoreApart(before, s, every);
    }
  }

  /** The last sample taken is the last offered, if that one was taken, and
      always when it is of that one second. */
  lemma LastTaken(offered: seq<Sample>, every: int)
    requires offered != []
    ensures var taken := Taken(offered, every);
      && taken != []
      && (Took(offered, every, |offered| - 1) ==> taken[|taken| - 1] == offered[|offered| - 1])
      && (taken[|taken| - 1].at == NO_TIME ==> Took(offered, every, |offered| - 1))
  {
    assert offered[..|offered|] == offered;
  }

  lemma OneMoreSoon(offered: seq<Sample>, every: int)
    requires offered != []
    ensures var n := |offered|; NoneTooSoon(offered, every) <==>
      NoneTooSoon(offered[..n - 1], every)
      && (n > 1 && offered[n - 2].at == NO_TIME && Took(offered, every, n - 2) ==> offered[n - 1].at - NO_TIME >= every)
  {
    hide Taken;
    var n := |offered|;
    var past := offered[..n - 1];
    forall k | 0 <= k < n - 1 ensures Took(past, every, k) <==> Took(offered, every, k) {
      assert past[..k] == offered[..k] && past[..k + 1] == offered[..k + 1];
    }
  }

  lemma OneMoreApart(before: seq<Sample>, s: Sample, every: int)
    requires every >= 0
    ensures Apart(before + [s], every) <==>
      Apart(before, every) && (before != [] ==> s.at - before[|before| - 1].at >= every)
  {
    var all, n := before + [s], |before|;
    assert forall i :: 0 <= i < n ==> all[i] == before[i];
    if Apart(all, every) && n > 0 {
      assert all[n].at - all[n - 1].at >= every;
    }
  }

  /** No sample is left out but one that comes less than the spacing after one
      that was taken, and taken last. */
  lemma LeftOut(offered: seq<Sample>, every: int, k: nat)
    requires k < |offered| && !Took(offered, every, k)
    ensures var before := Taken(offered[..k], every);
      before != [] && offered[k].at - before[|before| - 1].at < every && before[|before| - 1].at != NO_TIME
  {
    assert offered[..k + 1][..k] == offered[..k];
  }

  /** With a sample of that one second the spacing is not kept. */
  lemma NoTimeIsNotApart()
    ensures var a, b := Sample(NO_TIME, 0.0, 0, 0, 0), Sample(NO_TIME + 1, 0.0, 0, 0, 0);
      Taken([a, b], 3) == [a, b] && !Apart([a, b], 3)
  {
    var a, b := Sample(NO_TIME, 0.0, 0, 0, 0), Sample(NO_TIME + 1, 0.0, 0, 0, 0);
    assert [a, b][..1] == [a] && [a][..0] == [];
    assert Taken([a], 3) == [a];
  }

  /** The buffer, written round from `next`, holds the last of these samples. */
  predicate Holds(buf: seq<Sample>, next: nat, full: bool, taken: seq<Sample>) {
    && next < |buf| && next <= |taken| && (if full then |taken| >= |buf| else next == |taken|)
    && (forall k :: 0 <= k < next ==> buf[k] == taken[|taken| - next + k])
    && (full ==> forall k :: next <= k < |buf| ==> buf[k] == taken[|taken| - next - |buf| + k])
  }

  lemma Within(buf: seq<Sample>, next: nat, full: bool, taken: seq<Sample>)
    requires Holds(buf, next, full, taken)
    ensures next < |buf|
  {
  }

  lemma PutNext(buf: seq<Sample>, next: nat, full: bool, taken: seq<Sample>, s: Sample)
    requires Holds(buf, next, full, taken)
    ensures var round := next + 1 == |buf|;
      Holds(buf[next := s], if round then 0 else next + 1, full || round, taken + [s])
  {
  }

  class Ring {
    const buf: array<Sample>
    var next: nat
    var full: bool
    const every: int
    /** When the last sample was taken. */
    var last: int
    /** Everything ever offered. */
    ghost var offered: seq<Sample>

    ghost predicate Valid()
      reads this, buf
    {
      var taken := Taken(offered, every);
      && every > 0
      && last == (if taken == [] then NO_TIME else taken[|taken| - 1].at)
      && Holds(buf[..], next, full, taken)
    }

    constructor (window: int, spacing: int)
      requires spacing > 0 && window >= 0
      ensures Valid() && fresh(buf) && offered == [] && every == spacing
      ensures buf.Length == if window / spacing < 1 then 1 else window / spacing
    {
      var n := window / spacing;
      if n < 1 {
        n := 1;
      }
      buf := new Sample[n](i => Sample(0, 0.0, 0, 0, 0));
      next, full, every, last, offered := 0, false, spacing, NO_TIME, [];
    }

    /** Takes the sample if enough time has passed; says whether it did. */
    method Offer(s: Sample) returns (kept: bool)
      requires Valid()
      modifies `next, `full, `last, `offered, buf
      ensures Valid() && offered == old(offered) + [s]
      ensures Taken(offered, every) == if kept then Taken(old(offered), every) + [s] else Taken(old(offered), every)
    {
      hide Holds;
      assert next < buf.Length by { Within(buf[..], next, full, Taken(offered, every)); }
      offered := offered + [s];
      assert offered[..|offered| - 1] == old(offered);
      if last != NO_TIME && s.at - last < every {
        return false;
      }
      last := s.at;
      PutNext(buf[..], next, full, Taken(old(offered), every), s);
      ghost var after := buf[..][next := s];
      buf[next] := s;
      assert buf[..] == after;
      Round(next, buf.Length);
      next := (next + 1) % buf.Length;
      if next == 0 {
        full := true;
      }
      return true;
    }

    /** What the ring holds, the oldest first: the last samples it took. */
    method Samples() returns (r: seq<Sample>)
      requires Valid()
      ensures r == LastOf(Taken(offered, every), buf.Length)
    {
      ghost var taken := Taken(offered, every);
      r := [];
      if full {
        r := buf[next..];
      }
      r := r + buf[..next];
    }
  }

  lemma Round(n: nat, size: nat)
    requires n < size
    ensures (n + 1) % size == if n + 1 == size then 0 else n + 1
  {
    if n + 1 == size {
      assert size % size == 0;
    }
  }

  const LIVE_EVERY := 3
  const LIVE_WINDOW := 180
  const DAY_EVERY := 60
  const DAY_WINDOW := 86400

  /** A fine ring for the last minutes and a coarse one for the day, fed with
      the same samples. */
  class History {
    const live: Ring
    const day: Ring
    /** Every sample added. */
    ghost var added: seq<Sample>

    ghost predicate Valid()
      reads this, live, live.buf, day, day.buf
    {
      && live != day && live.buf != day.buf && live.Valid() && day.Valid()
      && live.offered == added && day.offered == added
      && live.every == LIVE_EVERY && live.buf.Length == 60 && day.every == DAY_EVERY && day.buf.Length == 1440
    }

    constructor ()
      ensures Valid() && added == [] && fresh(live) && fresh(live.buf) && fresh(day) && fresh(day.buf)
    {
      live := new Ring(LIVE_WINDOW, LIVE_EVERY);
      day := new Ring(DAY_WINDOW, DAY_EVERY);
      added := [];
    }

    method Add(s: Sample)
      requires Valid()
      modifies `added, live, live.buf, day, day.buf
      ensures Valid() && added == old(added) + [s]
    {
      var _ := live.Offer(s);
      var _ := day.Offer(s);
      added := added + [s];
    }

    /** The last 60 of the samples three seconds apart. */
    method Live() returns (r: seq<Sample>)
      requires Valid()
      ensures r == LastOf(Taken(added, 3), 60)
    {
      r := live.Samples();
    }

    /** The last 1440 of the samples a minute apart. */
    method Day() returns (r: seq<Sample>)
      requires Valid()
      ensures r == LastOf(Taken(added, 60), 1440)
    {
      r := day.Samples();
    }
  }
}
