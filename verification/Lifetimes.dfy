/** Sessions one after another on the same store, each ended by a crash or a clean exit. */
module Lifetimes {
  import opened Results
  import opened Bytes
  import opened Keys
  import opened Ledger
  import opened LedgerRuns
  import opened Store
  import opened Sessions
  import opened Allocator
  import opened Engine

  /** In every key the bytes below its floor have been there from before. */
  ghost predicate PriorBelow(m: Machine, floor: map<KeyId, nat>)
  {
    forall k :: k in floor ==> k in m.owners && floor[k] <= |m.owners[k]| && AllPrior(m.owners[k], floor[k])
  }

  ghost predicate AllPrior(o: seq<Owner>, n: nat)
    requires n <= |o|
  {
    forall i :: 0 <= i < n ==> o[i] == Prior
  }

  /** No action touches the bytes from before: not even a give-back reaches them. */
  lemma NextPrior(v: Vault, m: Machine, a: Action, floor: map<KeyId, nat>)
    requires Inv(v, m) && Enabled(v, m, a) && PriorBelow(m, floor)
    ensures PriorBelow(Next(v, m, a), floor)
  {
    hide Inv, PriorBelow, Advanced, Rewound;
    match a {
      case Give(k, size) => OwnersChanged(m, Next(v, m, a), k, m.owners[k] + Repeat(Handed(|m.log|), size), floor);
      case Lose(k, size) => OwnersChanged(m, Next(v, m, a), k, m.owners[k] + Repeat(Burned, size), floor);
      case Fill(s, k, size) => OwnersChanged(m, Next(v, m, a), k, m.owners[k] + Repeat(Held(s), size), floor);
      case Load(s, k, offset, size) => SameOwners(m, Next(v, m, a), floor);
      case Serve(s, size) => ServePrior(v, m, s, size, floor);
      case Drop(s) => DropPrior(v, m, s, floor);
      case GiveBack(s) => GiveBackPrior(v, m, s, floor);
      case Restart(n) => RestartPrior(v, m, n, floor);
    }
  }

  lemma SameOwners(m: Machine, m': Machine, floor: map<KeyId, nat>)
    requires PriorBelow(m, floor) && m'.owners == m.owners
    ensures PriorBelow(m', floor)
  {
  }

  /** A change to the owners of one key that leaves those below its floor alone. */
  lemma OwnersChanged(m: Machine, m': Machine, k: KeyId, o: seq<Owner>, floor: map<KeyId, nat>)
    requires PriorBelow(m, floor) && k in m.owners && m'.owners == m.owners[k := o]
    requires k in floor ==> forall i :: 0 <= i < floor[k] <= |m.owners[k]| ==> i < |o| && o[i] == m.owners[k][i]
    ensures PriorBelow(m', floor)
  {
    if k in floor && floor[k] > 0 {
      assert m.owners[k][floor[k] - 1] == Prior;
    }
  }

  lemma ServePrior(v: Vault, m: Machine, s: nat, size: nat, floor: map<KeyId, nat>)
    requires Inv(v, m) && Enabled(v, m, Serve(s, size)) && PriorBelow(m, floor)
    ensures PriorBelow(Next(v, m, Serve(s, size)), floor)
  {
    hide Inv, PriorBelow;
    TailAboveFloor(v, m, s, floor);
    var k, lo := m.slots[s].keyId, TailStart(m.slots[s]);
    OwnersChanged(m, Next(v, m, Serve(s, size)), k, Reown(m.owners[k], lo, lo + size, Handed(|m.log|)), floor);
  }

  lemma DropPrior(v: Vault, m: Machine, s: nat, floor: map<KeyId, nat>)
    requires Inv(v, m) && Enabled(v, m, Drop(s)) && PriorBelow(m, floor)
    ensures PriorBelow(Next(v, m, Drop(s)), floor)
  {
    hide Inv, PriorBelow;
    if Live(m.slots[s]) {
      TailAboveFloor(v, m, s, floor);
      var k, lo := m.slots[s].keyId, TailStart(m.slots[s]);
      OwnersChanged(m, Next(v, m, Drop(s)), k, Reown(m.owners[k], lo, TailEnd(m.slots[s]), Burned), floor);
    } else {
      SameOwners(m, Next(v, m, Drop(s)), floor);
    }
  }

  lemma GiveBackPrior(v: Vault, m: Machine, s: nat, floor: map<KeyId, nat>)
    requires Inv(v, m) && Enabled(v, m, GiveBack(s)) && PriorBelow(m, floor)
    ensures PriorBelow(Next(v, m, GiveBack(s)), floor)
  {
    hide Inv, PriorBelow, Rewound;
    TailAboveFloor(v, m, s, floor);
    var k := m.slots[s].keyId;
    OwnersChanged(m, Next(v, m, GiveBack(s)), k, m.owners[k][..TailStart(m.slots[s])], floor);
  }

  lemma RestartPrior(v: Vault, m: Machine, n: nat, floor: map<KeyId, nat>)
    requires PriorBelow(m, floor)
    ensures PriorBelow(Next(v, m, Restart(n)), floor)
  {
  }

  /** The unused tail of a slot lies above the floor of its key. */
  lemma TailAboveFloor(v: Vault, m: Machine, s: nat, floor: map<KeyId, nat>)
    requires Inv(v, m) && PriorBelow(m, floor) && LiveSlot(m, s)
    ensures m.slots[s].keyId in floor ==> floor[m.slots[s].keyId] <= TailStart(m.slots[s])
  {
    var k := m.slots[s].keyId;
    assert Owned(m, k) && SlotOwned(m, k, s) && SlotOf(m, k, s);
    assert m.owners[k][TailStart(m.slots[s])] == Held(s);
  }

  lemma {:induction false} RunPrior(v: Vault, m: Machine, acts: seq<Action>, floor: map<KeyId, nat>)
    requires Inv(v, m) && Run(v, m, acts) && PriorBelow(m, floor)
    ensures PriorBelow(After(v, m, acts), floor)
    decreases |acts|
  {
    hide Inv, PriorBelow;
    if acts != [] {
      NextInv(v, m, acts[0]);
      NextPrior(v, m, acts[0], floor);
      RunPrior(v, Next(v, m, acts[0]), acts[1..], floor);
    }
  }

  lemma {:induction false} RunKeys(v: Vault, m: Machine, acts: seq<Action>)
    requires Run(v, m, acts)
    ensures After(v, m, acts).recs.Keys == m.recs.Keys
    decreases |acts|
  {
    if acts != [] {
      RunKeys(v, Next(v, m, acts[0]), acts[1..]);
    }
  }

  function Used(recs: map<KeyId, Record>): map<KeyId, nat>
  {
    map k | k in recs :: recs[k].used
  }

  /**
   A session hands out only bytes between the position it found and the position it leaves behind, and leaves no
   position behind the one it found.
   */
  lemma GrantsBetween(v: Vault, start: Machine, acts: seq<Action>)
    requires Initial(v, start) && Run(v, start, acts)
    ensures var m := After(v, start, acts);
      && m.recs.Keys == start.recs.Keys
      && (forall k :: k in start.recs ==> start.recs[k].used <= m.recs[k].used)
      && (forall n :: 0 <= n < |m.log| ==>
            m.log[n].keyId in m.recs && start.recs[m.log[n].keyId].used <= m.log[n].lo
            && m.log[n].lo < m.log[n].hi <= m.recs[m.log[n].keyId].used)
  {
    hide Inv, PriorBelow, Initial, Run, After;
    var m, floor := After(v, start, acts), Used(start.recs);
    InitialInv(v, start);
    InitialPrior(v, start);
    RunInv(v, start, acts);
    RunKeys(v, start, acts);
    RunPrior(v, start, acts, floor);
    FloorBelow(v, m, floor);
    forall n | 0 <= n < |m.log|
      ensures m.log[n].keyId in m.recs && start.recs[m.log[n].keyId].used <= m.log[n].lo
      ensures m.log[n].lo < m.log[n].hi <= m.recs[m.log[n].keyId].used
    {
      GrantAboveFloor(v, m, n, floor);
    }
  }

  lemma InitialPrior(v: Vault, m: Machine)
    requires Initial(v, m)
    ensures PriorBelow(m, Used(m.recs))
  {
  }

  lemma FloorBelow(v: Vault, m: Machine, floor: map<KeyId, nat>)
    requires Inv(v, m) && PriorBelow(m, floor)
    ensures forall k :: k in floor ==> k in m.recs && floor[k] <= m.recs[k].used
  {
  }

  lemma GrantAboveFloor(v: Vault, m: Machine, n: nat, floor: map<KeyId, nat>)
    requires Inv(v, m) && PriorBelow(m, floor) && n < |m.log|
    ensures var k := m.log[n].keyId;
      k in m.recs && m.log[n].lo < m.log[n].hi <= m.recs[k].used && (k in floor ==> floor[k] <= m.log[n].lo)
  {
    var k := m.log[n].keyId;
    assert Owned(m, k) && GrantOwned(m, k, n) && GrantOf(m, k, n);
    assert m.owners[k][m.log[n].lo] == Handed(n);
  }

  /** The ranges are pairwise apart. */
  ghost predicate AllApart(grants: seq<Grant>)
  {
    forall p, q :: 0 <= p < q < |grants| && grants[p].keyId == grants[q].keyId ==>
      grants[p].hi <= grants[q].lo || grants[q].hi <= grants[p].lo
  }

  /** The ranges are not empty and lie below the recorded positions. */
  ghost predicate AllBelow(grants: seq<Grant>, recs: map<KeyId, Record>)
  {
    forall n :: 0 <= n < |grants| ==>
      grants[n].keyId in recs && grants[n].lo < grants[n].hi <= recs[grants[n].keyId].used
  }

  /** The ranges are not empty, lie below the recorded positions, and these inside the pads. */
  ghost predicate AllWithin(grants: seq<Grant>, pads: map<KeyId, seq<byte>>, recs: map<KeyId, Record>)
  {
    forall n :: 0 <= n < |grants| ==>
      && grants[n].keyId in recs && grants[n].keyId in pads
      && grants[n].lo < grants[n].hi <= recs[grants[n].keyId].used <= |pads[grants[n].keyId]|
  }

  /** Ranges from before a session and those of the session. */
  lemma Joined(grants: seq<Grant>, more: seq<Grant>, before: map<KeyId, Record>, after: map<KeyId, Record>)
    requires AllApart(grants) && AllBelow(grants, before) && AllApart(more) && AllBelow(more, after)
    requires before.Keys == after.Keys && forall k :: k in before ==> before[k].used <= after[k].used
    requires AllAbove(more, before)
    ensures AllApart(grants + more) && AllBelow(grants + more, after)
  {
    var all := grants + more;
    forall p, q | 0 <= p < q < |all| && all[p].keyId == all[q].keyId
      ensures all[p].hi <= all[q].lo || all[q].hi <= all[p].lo
    {
      if p >= |grants| {
        assert all[p] == more[p - |grants|] && all[q] == more[q - |grants|];
      } else if q >= |grants| {
        assert all[p] == grants[p] && all[q] == more[q - |grants|];
      }
    }
  }

  /** What a session is created with, and the calls it lives to make. */
  datatype Life = Life(resetCachedKeys: bool, encrypts: bool, decrypts: bool, stream: bool, blockOrFile: bool,
                       cacheSize: nat, calls: seq<Call>)
  {
    function Entry(): nat
    {
      EntrySize(stream, encrypts, decrypts, cacheSize)
    }
  }

  /** The keyset and the pads behind it are consistent, and no session is using it. */
  ghost predicate AtRest(db: KeyStore, pads: map<KeyId, seq<byte>>)
    reads db
  {
    && db.Clean() && db.working == db.committed && db.keys.Keys == pads.Keys == db.committed.Keys
    && forall k :: k in db.committed ==> KeyOk(db.keys[k], pads[k], db.committed[k])
  }

  /** The life may be lived: its session is created and may make all its calls, under this one key. */
  predicate Livable(db: KeyStore, life: Life, keyId: KeyId, most: nat)
  {
    && life.cacheSize <= MAX_CHUNK_SIZE && (life.stream || life.blockOrFile) && most <= MAX_CHUNK_SIZE
    && CanRead(db.keys, db.maxAttached, keyId, most)
    && Speaks(TermsOf(db.keys[keyId], keyId, most, life.encrypts, life.decrypts), false, None, life.calls)
  }

  /**
   One session from its creation until its process dies. The ranges that its successful encryptions report are
   apart, and lie between the position it finds and the one it leaves. A life that may be lived, within its limit and
   without faults, has every call succeed.
   */
  method LiveOnce(db: KeyStore, ghost pads: map<KeyId, seq<byte>>, life: Life, ghost keyId: KeyId, ghost most: nat,
                  ghost limit: nat)
    returns (replies: seq<Reply>)
    requires AtRest(db, pads)
    modifies db
    ensures AtRest(db, pads) && old(db.faults) <= db.faults && db.committed.Keys == old(db.committed).Keys
    ensures |replies| == |life.calls| && AllMixed(pads, life.calls, replies)
    ensures AllApart(Granted(life.calls, replies)) && AllBelow(Granted(life.calls, replies), db.committed)
    ensures forall k :: k in db.committed ==> old(db.committed)[k].used <= db.committed[k].used
    ensures AllAbove(Granted(life.calls, replies), old(db.committed))
    ensures Livable(db, life, keyId, most) && keyId in old(db.committed)
            && old(db.committed)[keyId].used + Charges(life.Entry(), life.calls) <= limit <= db.keys[keyId].total
            && db.faults == old(db.faults) ==>
            AllOk(replies) && db.committed[keyId].used <= limit
  {
    hide Session.Valid, Initial, Run, After, KeyOk, Session.CacheEnabled, Session.StreamCached, AllMixed, Granted, Speaks,
         CanRead, AllAbove, AllBelow, AllApart, AllOk;
    var code, s := CreateSession(db, pads, life.resetCachedKeys, life.encrypts, life.decrypts, life.stream,
                                 life.blockOrFile, life.cacheSize);
    if code != Ok {
      replies := seq(|life.calls|, _ => Reply(Handle, None, 0, []));
      NothingGranted(life.calls, replies, pads, db.committed);
      return;
    }
    ghost var start := s.View();
    ghost var acts;
    replies, acts := PerformAll(s, life.calls, keyId, most, limit);
    GrantsBetween(s.TheVault(), start, acts);
    HistoryApart(s.log, start.recs, s.db.committed);
    Consistent(s);
    db.Crash();
  }

  /** The ranges lie above the positions that were recorded before. */
  ghost predicate AllAbove(grants: seq<Grant>, recs: map<KeyId, Record>)
  {
    forall n :: 0 <= n < |grants| ==> grants[n].keyId in recs && recs[grants[n].keyId].used <= grants[n].lo
  }

  lemma HistoryApart(log: seq<Grant>, before: map<KeyId, Record>, after: map<KeyId, Record>)
    requires forall p, q :: 0 <= p < q < |log| && log[p].keyId == log[q].keyId ==>
      log[p].hi <= log[q].lo || log[q].hi <= log[p].lo
    requires before.Keys == after.Keys
    requires forall n :: 0 <= n < |log| ==>
      && log[n].keyId in after && before[log[n].keyId].used <= log[n].lo
      && log[n].lo < log[n].hi <= after[log[n].keyId].used
    ensures AllApart(log) && AllBelow(log, after) && AllAbove(log, before)
  {
  }

  /** A session that could not be created grants nothing. */
  lemma {:induction false} NothingGranted(calls: seq<Call>, replies: seq<Reply>, pads: map<KeyId, seq<byte>>,
                                          recs: map<KeyId, Record>)
    requires |replies| == |calls| && forall i :: 0 <= i < |replies| ==> replies[i].code == Handle
    ensures Granted(calls, replies) == [] && AllMixed(pads, calls, replies)
    ensures AllApart([]) && AllBelow([], recs) && AllAbove([], recs)
  {
    if calls != [] {
      var n := |calls| - 1;
      NothingGranted(calls[..n], replies[..n], pads, recs);
    }
  }

  lemma Consistent(s: Session)
    requires s.Valid()
    ensures s.RecordsOk(s.db.committed)
  {
  }

  /** The ranges that the sessions of these lives report, in order. */
  function AllGranted(lives: seq<Life>, replies: seq<seq<Reply>>): seq<Grant>
    requires |replies| == |lives| && forall i :: 0 <= i < |lives| ==> |replies[i]| == |lives[i].calls|
  {
    if lives == [] then []
    else
      var n := |lives| - 1;
      AllGranted(lives[..n], replies[..n]) + Granted(lives[n].calls, replies[n])
  }

  /** What the lives may cost their key at most. */
  function AllCharges(lives: seq<Life>): nat
  {
    if lives == [] then 0 else Charges(lives[0].Entry(), lives[0].calls) + AllCharges(lives[1..])
  }

  /**
   Single use across crashes and restarts: over any number of sessions one after another on the same keyset, each
   with its own calls and cache, and each ended without warning, the ranges that all their successful encryptions report
   are pairwise apart: no byte of a pad is used twice. Every range lies inside its pad and below the position that is
   persisted at the end. While the pad lasts, and without faults, no call of lives that may be lived fails.
   */
  method LiveRepeatedly(db: KeyStore, ghost pads: map<KeyId, seq<byte>>, lives: seq<Life>, ghost keyId: KeyId, ghost most: nat)
    returns (replies: seq<seq<Reply>>)
    requires AtRest(db, pads)
    modifies db
    ensures AtRest(db, pads) && |replies| == |lives|
    ensures forall i :: 0 <= i < |lives| ==> |replies[i]| == |lives[i].calls| && AllMixed(pads, lives[i].calls, replies[i])
    ensures AllApart(AllGranted(lives, replies)) && AllWithin(AllGranted(lives, replies), pads, db.committed)
    ensures (forall i :: 0 <= i < |lives| ==> Livable(db, lives[i], keyId, most)) && keyId in old(db.committed)
            && old(db.committed)[keyId].used + AllCharges(lives) <= db.keys[keyId].total
            && db.faults == old(db.faults) ==>
            forall i :: 0 <= i < |lives| ==> AllOk(replies[i])
  {
    hide KeyOk, AllMixed, Granted, Livable, AllOk, AllApart, AllBelow, AllAbove, AllWithin, AllGranted;
    replies := [];
    ghost var affordable := (forall i :: 0 <= i < |lives| ==> Livable(db, lives[i], keyId, most)) && keyId in db.committed
                            && keyId in db.keys && db.committed[keyId].used + AllCharges(lives) <= db.keys[keyId].total;
    NothingYet(lives, db.committed);
    for i := 0 to |lives|
      invariant AtRest(db, pads) && |replies| == i && old(db.faults) <= db.faults
      invariant db.committed.Keys == old(db.committed).Keys
      invariant forall j :: 0 <= j < i ==> |replies[j]| == |lives[j].calls| && AllMixed(pads, lives[j].calls, replies[j])
      invariant AllApart(AllGranted(lives[..i], replies)) && AllBelow(AllGranted(lives[..i], replies), db.committed)
      invariant affordable && db.faults == old(db.faults) ==>
        && db.committed[keyId].used + AllCharges(lives[i..]) <= db.keys[keyId].total
        && forall j :: 0 <= j < i ==> AllOk(replies[j])
    {
      ghost var before, rest := db.committed, AllCharges(lives[i + 1..]);
      ghost var limit := if affordable && db.faults == old(db.faults) then db.keys[keyId].total - rest else 0;
      assert lives[i..][1..] == lives[i + 1..];
      var more := LiveOnce(db, pads, lives[i], keyId, most, limit);
      Joined(AllGranted(lives[..i], replies), Granted(lives[i].calls, more), before, db.committed);
      GrantedNext(lives, replies, more);
      replies := replies + [more];
    }
    assert lives[..|lives|] == lives;
    GrantsInside(AllGranted(lives, replies), db.keys, pads, db.committed);
  }

  lemma NothingYet(lives: seq<Life>, recs: map<KeyId, Record>)
    ensures AllApart(AllGranted(lives[..0], [])) && AllBelow(AllGranted(lives[..0], []), recs)
  {
  }

  lemma GrantedNext(lives: seq<Life>, replies: seq<seq<Reply>>, more: seq<Reply>)
    requires |replies| < |lives| && |more| == |lives[|replies|].calls|
    requires forall i :: 0 <= i < |replies| ==> |replies[i]| == |lives[i].calls|
    ensures AllGranted(lives[..|replies| + 1], replies + [more])
            == AllGranted(lives[..|replies|], replies) + Granted(lives[|replies|].calls, more)
  {
    hide Granted;
    var n := |replies|;
    assert lives[..n + 1][..n] == lives[..n] && (replies + [more])[..n] == replies;
  }

  /** What the ranges of all sessions come to once the last one has ended. */
  lemma GrantsInside(grants: seq<Grant>, keys: map<KeyId, KeyInfo>, pads: map<KeyId, seq<byte>>, recs: map<KeyId, Record>)
    requires AllBelow(grants, recs) && keys.Keys == pads.Keys == recs.Keys
    requires forall k :: k in recs ==> KeyOk(keys[k], pads[k], recs[k])
    ensures AllWithin(grants, pads, recs)
  {
  }
}
