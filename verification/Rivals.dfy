/**
 Several sessions allocating from one key. A session reads the key's row before it takes the exclusive lock, and
 its commit sets the position from that snapshot while it adds to the used-bytes counter.
 */
module Rivals {
  import opened Results
  import opened Chunks
  import opened Keys

  /** Where a session is in an allocation. */
  datatype Phase = Idle | Planned(snap: Record, size: nat) | Holding(snap: Record, size: nat)

  /** A range of pad positions a session has allocated and not given back. */
  datatype Range = Range(owner: nat, lo: nat, hi: nat)

  datatype Shared = Shared(rec: Record, phases: seq<Phase>, lock: Option<nat>, ranges: seq<Range>)

  datatype Step =
    | Snapshot(who: nat, size: nat)
    | Begin(who: nat)
    | Commit(who: nat)
    | Abort(who: nat)
    | GiveBack(who: nat, range: nat, keep: nat)   // returns all but the first `keep` bytes of a range

  predicate Known(m: Shared, who: nat)
  {
    who < |m.phases|
  }

  predicate Enabled(info: KeyInfo, m: Shared, a: Step)
  {
    match a
    case Snapshot(w, size) =>
      Known(m, w) && m.phases[w].Idle? && size > 0 && m.rec.used + size <= info.total && Plannable(info.chunkSize, m.rec.at)
    case Begin(w) => Known(m, w) && m.phases[w].Planned? && m.lock == None
    case Commit(w) => Known(m, w) && m.phases[w].Holding? && Plannable(info.chunkSize, m.phases[w].snap.at)
    case Abort(w) => Known(m, w)
    case GiveBack(w, r, keep) =>
      && Known(m, w) && m.lock == None
      && r < |m.ranges| && m.ranges[r].owner == w && m.ranges[r].lo + keep < m.ranges[r].hi
      && m.ranges[r].hi == Top(info, m.rec)
      && m.ranges[r].hi - m.ranges[r].lo - keep <= m.rec.used
  }

  function Next(info: KeyInfo, m: Shared, a: Step): Shared
    requires Enabled(info, m, a)
  {
    match a
    case Snapshot(w, size) => m.(phases := m.phases[w := Planned(m.rec, size)])
    case Begin(w) => m.(phases := m.phases[w := Holding(m.phases[w].snap, m.phases[w].size)], lock := Some(w))
    case Commit(w) =>
      var snap, size := m.phases[w].snap, m.phases[w].size;
      var lo := Global(info.chunkSize, snap.at);
      m.(rec := Record(PlanEnd(info.chunkSize, snap.at, size), m.rec.used + size),
         phases := m.phases[w := Idle], lock := None,
         ranges := m.ranges + [Range(w, lo, lo + size)])
    case Abort(w) =>
      m.(phases := m.phases[w := Idle], lock := if m.lock == Some(w) then None else m.lock)
    case GiveBack(w, r, keep) =>
      var mid := m.ranges[r].lo + keep;
      var unused := m.ranges[r].hi - mid;
      m.(rec := Rewound(info, m.rec, mid, unused), ranges := m.ranges[r := Range(w, m.ranges[r].lo, mid)])
  }

  ghost predicate Run(info: KeyInfo, m: Shared, steps: seq<Step>)
    decreases |steps|
  {
    steps == [] || (Enabled(info, m, steps[0]) && Run(info, Next(info, m, steps[0]), steps[1..]))
  }

  ghost function After(info: KeyInfo, m: Shared, steps: seq<Step>): Shared
    requires Run(info, m, steps)
    decreases |steps|
  {
    if steps == [] then m else After(info, Next(info, m, steps[0]), steps[1..])
  }

  /** Idle sessions over a consistent key, nothing allocated yet. */
  predicate Initial(info: KeyInfo, m: Shared)
  {
    && Plannable(info.chunkSize, m.rec.at)
    && (forall w :: 0 <= w < |m.phases| ==> m.phases[w] == Idle)
    && m.lock == None && m.ranges == []
  }

  // ---------------------------------------------------------------------------
  // The counter.

  /** The total length of the ranges. */
  function Total(ranges: seq<Range>): int
  {
    if ranges == [] then 0
    else Total(ranges[..|ranges| - 1]) + ranges[|ranges| - 1].hi - ranges[|ranges| - 1].lo
  }

  lemma {:induction false} TotalOfUpdate(ranges: seq<Range>, r: nat, x: Range)
    requires r < |ranges|
    ensures Total(ranges[r := x]) == Total(ranges) - (ranges[r].hi - ranges[r].lo) + (x.hi - x.lo)
  {
    var n := |ranges| - 1;
    if r == n {
      assert ranges[r := x][..n] == ranges[..n];
    } else {
      TotalOfUpdate(ranges[..n], r, x);
      assert ranges[r := x][..n] == ranges[..n][r := x];
    }
  }

  /** One step moves the counter by as much as it moves the total length of the ranges. */
  lemma StepCounts(info: KeyInfo, m: Shared, a: Step)
    requires Enabled(info, m, a)
    ensures Next(info, m, a).rec.used - Total(Next(info, m, a).ranges) == m.rec.used - Total(m.ranges)
  {
    match a
    case Commit(w) =>
      var ranges := Next(info, m, a).ranges;
      assert ranges[..|ranges| - 1] == m.ranges;
    case GiveBack(w, r, keep) => TotalOfUpdate(m.ranges, r, Range(w, m.ranges[r].lo, m.ranges[r].lo + keep));
    case _ =>
  }

  /**
   In every interleaving of several sessions, overlapping or not, the used-bytes counter has grown by exactly the
   total length of the ranges the sessions hold.
   */
  lemma {:induction false} CounterExact(info: KeyInfo, m: Shared, steps: seq<Step>)
    requires Run(info, m, steps)
    ensures After(info, m, steps).rec.used - m.rec.used == Total(After(info, m, steps).ranges) - Total(m.ranges)
    decreases |steps|
  {
    if steps != [] {
      StepCounts(info, m, steps[0]);
      CounterExact(info, Next(info, m, steps[0]), steps[1..]);
    }
  }

  // ---------------------------------------------------------------------------
  // The lock.

  /** The lock is with the one session that is inside a transaction, or with nobody. */
  predicate Locked(m: Shared)
  {
    && (m.lock.Some? ==> m.lock.value < |m.phases|)
    && forall w :: 0 <= w < |m.phases| ==> (m.phases[w].Holding? <==> m.lock == Some(w))
  }

  /** In every interleaving at most one session is inside a transaction, and then it has the lock; else the lock is free. */
  lemma {:induction false} LockExact(info: KeyInfo, m: Shared, steps: seq<Step>)
    requires Locked(m) && Run(info, m, steps)
    ensures Locked(After(info, m, steps))
    ensures var n := After(info, m, steps);
      && (n.lock == None <==> forall w :: 0 <= w < |n.phases| ==> !n.phases[w].Holding?)
      && forall v, w :: 0 <= v < w < |n.phases| ==> !(n.phases[v].Holding? && n.phases[w].Holding?)
    decreases |steps|
  {
    if steps != [] {
      LockExact(info, Next(info, m, steps[0]), steps[1..]);
    }
  }

  lemma InitialLocked(info: KeyInfo, m: Shared)
    requires Initial(info, m)
    ensures Locked(m)
  {
  }

  // ---------------------------------------------------------------------------
  // Disjointness.

  predicate Disjoint(a: Range, b: Range)
  {
    a.hi <= b.lo || b.hi <= a.lo || a.lo >= a.hi || b.lo >= b.hi
  }

  predicate AllDisjoint(ranges: seq<Range>)
  {
    forall p, q :: 0 <= p < q < |ranges| ==> Disjoint(ranges[p], ranges[q])
  }

  /** A commit whose snapshot is not behind the recorded position. */
  predicate Timely(info: KeyInfo, m: Shared, a: Step)
  {
    a.Commit? && Known(m, a.who) && m.phases[a.who].Holding? ==>
      Global(info.chunkSize, m.phases[a.who].snap.at) >= Top(info, m.rec)
  }

  ghost predicate AllTimely(info: KeyInfo, m: Shared, steps: seq<Step>)
    requires Run(info, m, steps)
    decreases |steps|
  {
    steps == [] || (Timely(info, m, steps[0]) && AllTimely(info, Next(info, m, steps[0]), steps[1..]))
  }

  predicate PhaseOk(info: KeyInfo, p: Phase)
  {
    p.Idle? || (p.size > 0 && Plannable(info.chunkSize, p.snap.at))
  }

  /** Everything allocated lies below the recorded position and apart. */
  predicate Inv(info: KeyInfo, m: Shared)
  {
    && Plannable(info.chunkSize, m.rec.at)
    && (forall w :: 0 <= w < |m.phases| ==> PhaseOk(info, m.phases[w]))
    && AllDisjoint(m.ranges)
    && (forall r :: 0 <= r < |m.ranges| && m.ranges[r].lo < m.ranges[r].hi ==> m.ranges[r].hi <= Top(info, m.rec))
  }

  lemma CommitKeeps(info: KeyInfo, m: Shared, w: nat)
    requires Inv(info, m) && Enabled(info, m, Commit(w)) && Timely(info, m, Commit(w))
    ensures Inv(info, Next(info, m, Commit(w)))
  {
    PlanEndsAt(info.chunkSize, m.phases[w].snap.at, m.phases[w].size);
  }

  lemma GiveBackKeeps(info: KeyInfo, m: Shared, w: nat, r: nat, keep: nat)
    requires Inv(info, m) && Enabled(info, m, GiveBack(w, r, keep))
    ensures Inv(info, Next(info, m, GiveBack(w, r, keep)))
  {
    var m' := Next(info, m, GiveBack(w, r, keep));
    var mid := m.ranges[r].lo + keep;
    LocateGlobal(info.chunkSize, mid);
    assert Top(info, m'.rec) == mid;
    forall i | 0 <= i < |m'.ranges| && m'.ranges[i].lo < m'.ranges[i].hi
      ensures m'.ranges[i].hi <= mid
    {
      assert i < r ==> Disjoint(m.ranges[i], m.ranges[r]);
      assert r < i ==> Disjoint(m.ranges[r], m.ranges[i]);
    }
    forall p, q | 0 <= p < q < |m'.ranges|
      ensures Disjoint(m'.ranges[p], m'.ranges[q])
    {
      assert Disjoint(m.ranges[p], m.ranges[q]);
    }
  }

  lemma NextKeeps(info: KeyInfo, m: Shared, a: Step)
    requires Inv(info, m) && Enabled(info, m, a) && Timely(info, m, a)
    ensures Inv(info, Next(info, m, a))
  {
    match a
    case Commit(w) => CommitKeeps(info, m, w);
    case GiveBack(w, r, keep) => GiveBackKeeps(info, m, w, r, keep);
    case _ =>
  }

  /** When every commit is timely, the ranges of all sessions are disjoint, give-backs included. */
  lemma {:induction false} TimelyRunsApart(info: KeyInfo, m: Shared, steps: seq<Step>)
    requires Inv(info, m) && Run(info, m, steps) && AllTimely(info, m, steps)
    ensures Inv(info, After(info, m, steps))
    decreases |steps|
  {
    if steps != [] {
      NextKeeps(info, m, steps[0]);
      TimelyRunsApart(info, Next(info, m, steps[0]), steps[1..]);
    }
  }

  // ---------------------------------------------------------------------------
  // The condition in the callers' terms: nobody else commits between a session's snapshot and its lock.

  /** A session takes the lock only while the record is still the one it read. */
  predicate Quiet(m: Shared, a: Step)
  {
    a.Begin? && Known(m, a.who) && m.phases[a.who].Planned? ==> m.phases[a.who].snap == m.rec
  }

  ghost predicate AllQuiet(info: KeyInfo, m: Shared, steps: seq<Step>)
    requires Run(info, m, steps)
    decreases |steps|
  {
    steps == [] || (Quiet(m, steps[0]) && AllQuiet(info, Next(info, m, steps[0]), steps[1..]))
  }

  /** Only the lock holder is past BEGIN, and in a quiet run its snapshot is the current record. */
  predicate HolderCurrent(m: Shared)
  {
    forall w :: 0 <= w < |m.phases| && m.phases[w].Holding? ==> m.lock == Some(w) && m.phases[w].snap == m.rec
  }

  lemma {:induction false} QuietRunsTimely(info: KeyInfo, m: Shared, steps: seq<Step>)
    requires HolderCurrent(m) && Run(info, m, steps) && AllQuiet(info, m, steps)
    ensures AllTimely(info, m, steps)
    decreases |steps|
  {
    if steps != [] {
      QuietRunsTimely(info, Next(info, m, steps[0]), steps[1..]);
    }
  }

  /** A step that moves the key's record. */
  predicate Moves(a: Step)
  {
    a.Commit? || a.GiveBack?
  }

  /** Somebody has moved the record since session w last read it. */
  predicate Disturbed(steps: seq<Step>, w: nat)
  {
    if steps == [] then false
    else
      var last := steps[|steps| - 1];
      if last.Snapshot? && last.who == w then false
      else Moves(last) || Disturbed(steps[..|steps| - 1], w)
  }

  /** No commit and no give-back on the key falls between a session's reading of its row and its BEGIN. */
  predicate Undisturbed(steps: seq<Step>)
  {
    forall j :: 0 <= j < |steps| && steps[j].Begin? ==> !Disturbed(steps[..j], steps[j].who)
  }

  /** A session whose reading has not been disturbed still holds the current record. */
  predicate Current(m: Shared, past: seq<Step>)
  {
    forall w :: 0 <= w < |m.phases| && m.phases[w].Planned? && !Disturbed(past, w) ==> m.phases[w].snap == m.rec
  }

  lemma CurrentNext(info: KeyInfo, m: Shared, past: seq<Step>, a: Step)
    requires Current(m, past) && Enabled(info, m, a)
    ensures Current(Next(info, m, a), past + [a])
  {
    var m' := Next(info, m, a);
    forall w | 0 <= w < |m'.phases| && m'.phases[w].Planned? && !Disturbed(past + [a], w)
      ensures m'.phases[w].snap == m'.rec
    {
      assert (past + [a])[..|past + [a]| - 1] == past;
      if !(a.Snapshot? && a.who == w) {
        assert !Disturbed(past, w) && m.phases[w] == m'.phases[w];
      }
    }
  }

  lemma {:induction false} UndisturbedQuiet(info: KeyInfo, m: Shared, past: seq<Step>, steps: seq<Step>)
    requires Run(info, m, steps) && Current(m, past) && Undisturbed(past + steps)
    ensures AllQuiet(info, m, steps)
    decreases |steps|
  {
    if steps != [] {
      var a := steps[0];
      assert (past + steps)[|past|] == a && (past + steps)[..|past|] == past;
      CurrentNext(info, m, past, a);
      assert past + steps == (past + [a]) + steps[1..];
      UndisturbedQuiet(info, Next(info, m, a), past + [a], steps[1..]);
    }
  }

  /**
   Several sessions, any interleaving: if no commit and no give-back on the key falls between a session's reading of
   the key's row and its BEGIN, the ranges allocated by all of them are disjoint.
   */
  lemma QuietRunsApart(info: KeyInfo, m: Shared, steps: seq<Step>)
    requires Initial(info, m) && Run(info, m, steps) && Undisturbed(steps)
    ensures AllDisjoint(After(info, m, steps).ranges)
  {
    assert [] + steps == steps;
    UndisturbedQuiet(info, m, [], steps);
    QuietRunsTimely(info, m, steps);
    TimelyRunsApart(info, m, steps);
  }

  // ---------------------------------------------------------------------------
  // Without give-backs the condition is exact.

  predicate NoGiveBack(steps: seq<Step>)
  {
    forall i :: 0 <= i < |steps| ==> !steps[i].GiveBack?
  }

  predicate Covered(ranges: seq<Range>, i: nat)
  {
    exists r :: 0 <= r < |ranges| && ranges[r].lo <= i < ranges[r].hi
  }

  /** The ranges tile everything between the start and the position, and no snapshot is ahead of it. */
  predicate Tiled(info: KeyInfo, m: Shared, from: nat)
  {
    && (forall i: nat :: from <= i < Top(info, m.rec) ==> Covered(m.ranges, i))
    && (forall w :: 0 <= w < |m.phases| && !m.phases[w].Idle? ==>
          from <= Global(info.chunkSize, m.phases[w].snap.at) <= Top(info, m.rec))
    && from <= Top(info, m.rec)
  }

  lemma CommitTiles(info: KeyInfo, m: Shared, w: nat, from: nat)
    requires Inv(info, m) && Tiled(info, m, from) && Enabled(info, m, Commit(w)) && Timely(info, m, Commit(w))
    ensures Tiled(info, Next(info, m, Commit(w)), from)
  {
    var m' := Next(info, m, Commit(w));
    var snap, size := m.phases[w].snap, m.phases[w].size;
    PlanEndsAt(info.chunkSize, snap.at, size);
    forall i: nat | from <= i < Top(info, m'.rec)
      ensures Covered(m'.ranges, i)
    {
      if i < Top(info, m.rec) {
        assert Covered(m.ranges, i);
        var r :| 0 <= r < |m.ranges| && m.ranges[r].lo <= i < m.ranges[r].hi;
        assert m'.ranges[r] == m.ranges[r];
      } else {
        assert m'.ranges[|m.ranges|] == Range(w, Global(info.chunkSize, snap.at), Global(info.chunkSize, snap.at) + size);
      }
    }
  }

  lemma NextTiles(info: KeyInfo, m: Shared, a: Step, from: nat)
    requires Inv(info, m) && Tiled(info, m, from) && Enabled(info, m, a) && Timely(info, m, a) && !a.GiveBack?
    ensures Tiled(info, Next(info, m, a), from)
  {
    if a.Commit? {
      CommitTiles(info, m, a.who, from);
    }
  }

  /** A commit from a stale snapshot allocates a byte that some session has already. */
  lemma StaleCommitOverlaps(info: KeyInfo, m: Shared, w: nat, from: nat)
    requires Inv(info, m) && Tiled(info, m, from) && Enabled(info, m, Commit(w)) && !Timely(info, m, Commit(w))
    ensures !AllDisjoint(Next(info, m, Commit(w)).ranges)
  {
    var m' := Next(info, m, Commit(w));
    var p := Global(info.chunkSize, m.phases[w].snap.at);
    assert Covered(m.ranges, p);
    var r :| 0 <= r < |m.ranges| && m.ranges[r].lo <= p < m.ranges[r].hi;
    assert !Disjoint(m'.ranges[r], m'.ranges[|m.ranges|]);
  }

  /** Without give-backs an overlap never goes away. */
  lemma {:induction false} OverlapStays(info: KeyInfo, m: Shared, steps: seq<Step>)
    requires Run(info, m, steps) && NoGiveBack(steps) && !AllDisjoint(m.ranges)
    ensures !AllDisjoint(After(info, m, steps).ranges)
    decreases |steps|
  {
    if steps != [] {
      var m' := Next(info, m, steps[0]);
      var p, q :| 0 <= p < q < |m.ranges| && !Disjoint(m.ranges[p], m.ranges[q]);
      assert !steps[0].GiveBack?;
      assert m'.ranges[p] == m.ranges[p] && m'.ranges[q] == m.ranges[q];
      OverlapStays(info, m', steps[1..]);
    }
  }

  lemma {:induction false} ApartMeansTimely(info: KeyInfo, m: Shared, steps: seq<Step>, from: nat)
    requires Inv(info, m) && Tiled(info, m, from) && Run(info, m, steps) && NoGiveBack(steps)
    requires AllDisjoint(After(info, m, steps).ranges)
    ensures AllTimely(info, m, steps)
    decreases |steps|
  {
    if steps != [] {
      var m' := Next(info, m, steps[0]);
      assert NoGiveBack(steps[1..]) && !steps[0].GiveBack?;
      if !Timely(info, m, steps[0]) {
        StaleCommitOverlaps(info, m, steps[0].who, from);
        OverlapStays(info, m', steps[1..]);
      } else {
        NextKeeps(info, m, steps[0]);
        NextTiles(info, m, steps[0], from);
        ApartMeansTimely(info, m', steps[1..], from);
      }
    }
  }

  /**
   The exact condition without give-backs: all ranges are disjoint if and only if no session commits from a
   snapshot that is behind the recorded position.
   */
  lemma DisjointIffTimely(info: KeyInfo, m: Shared, steps: seq<Step>)
    requires Initial(info, m) && Run(info, m, steps) && NoGiveBack(steps)
    ensures AllDisjoint(After(info, m, steps).ranges) <==> AllTimely(info, m, steps)
  {
    if AllTimely(info, m, steps) {
      TimelyRunsApart(info, m, steps);
    }
    if AllDisjoint(After(info, m, steps).ranges) {
      ApartMeansTimely(info, m, steps, Top(info, m.rec));
    }
  }

  /** Two sessions that both read the row before either takes the lock are given the same bytes. */
  lemma Race()
    ensures exists info: KeyInfo, m: Shared, steps: seq<Step> ::
      Initial(info, m) && Run(info, m, steps) && !AllDisjoint(After(info, m, steps).ranges)
  {
    hide Enabled, Next;
    var info := KeyInfo(100, 0, true, false, map[]);
    var steps := [Snapshot(0, 10), Snapshot(1, 10), Begin(0), Commit(0), Begin(1), Commit(1)];
    var m0, m1, m2, m3, m4, m5, m6 := RaceStates(info);
    RunStep(info, m5, steps[5..], m6);
    RunStep(info, m4, steps[4..], m6);
    RunStep(info, m3, steps[3..], m6);
    RunStep(info, m2, steps[2..], m6);
    RunStep(info, m1, steps[1..], m6);
    RunStep(info, m0, steps, m6);
    assert !Disjoint(m6.ranges[0], m6.ranges[1]);
  }

  /** The states of that run. */
  lemma RaceStates(info: KeyInfo) returns (m0: Shared, m1: Shared, m2: Shared, m3: Shared, m4: Shared, m5: Shared, m6: Shared)
    requires info == KeyInfo(100, 0, true, false, map[])
    ensures Initial(info, m0)
    ensures Enabled(info, m0, Snapshot(0, 10)) && m1 == Next(info, m0, Snapshot(0, 10))
    ensures Enabled(info, m1, Snapshot(1, 10)) && m2 == Next(info, m1, Snapshot(1, 10))
    ensures Enabled(info, m2, Begin(0)) && m3 == Next(info, m2, Begin(0))
    ensures Enabled(info, m3, Commit(0)) && m4 == Next(info, m3, Commit(0))
    ensures Enabled(info, m4, Begin(1)) && m5 == Next(info, m4, Begin(1))
    ensures Enabled(info, m5, Commit(1)) && m6 == Next(info, m5, Commit(1))
    ensures m6.ranges == [Range(0, 0, 10), Range(1, 0, 10)]
  {
    m0 := Shared(Record(Position(1, 0), 0), [Idle, Idle], None, []);
    m1 := Next(info, m0, Snapshot(0, 10));
    m2 := Next(info, m1, Snapshot(1, 10));
    m3 := Next(info, m2, Begin(0));
    m4 := Next(info, m3, Commit(0));
    m5 := Next(info, m4, Begin(1));
    m6 := Next(info, m5, Commit(1));
  }

  lemma RunStep(info: KeyInfo, m: Shared, steps: seq<Step>, end: Shared)
    requires steps != [] && Enabled(info, m, steps[0])
    requires Run(info, Next(info, m, steps[0]), steps[1..]) && After(info, Next(info, m, steps[0]), steps[1..]) == end
    ensures Run(info, m, steps) && After(info, m, steps) == end
  {
  }
}
