/** The key cache: pre-allocated pad ranges, served in slices, with optional give-back of what was not used. */
module Cache {
  import opened Results
  import opened Bytes
  import opened Chunks
  import opened Keys
  import opened Ledger
  import opened LedgerRuns
  import opened Store
  import opened Sessions
  import opened Allocator

  /** The session has moved from `before` by performing `acts` on the pad ledger. */
  ghost predicate Refines(s: Session, before: Machine, acts: seq<Action>)
    reads s, s.db
  {
    Run(s.TheVault(), before, acts) && After(s.TheVault(), before, acts) == s.View()
  }

  predicate Matches(slot: CachedKey, keyId: KeyId, encrypt: bool)
  {
    slot.inUse && slot.keyId == keyId && slot.isEncrypt == encrypt
  }

  /** The first slot in use for this key and direction, from position i on. */
  function FirstMatch(slots: seq<CachedKey>, i: nat, keyId: KeyId, encrypt: bool): (found: Option<nat>)
    requires i <= |slots|
    ensures found.Some? ==> i <= found.value < |slots| && Matches(slots[found.value], keyId, encrypt)
    ensures forall j :: i <= j < |slots| && (found.Some? ==> j < found.value) ==> !Matches(slots[j], keyId, encrypt)
    decreases |slots| - i
  {
    if i == |slots| then None
    else if Matches(slots[i], keyId, encrypt) then Some(i)
    else FirstMatch(slots, i + 1, keyId, encrypt)
  }

  method FindCachedKey(s: Session, keyId: KeyId, encrypt: bool) returns (found: Option<nat>)
    ensures found == FirstMatch(s.slots, 0, keyId, encrypt)
  {
    for index := 0 to |s.slots|
      invariant FirstMatch(s.slots, 0, keyId, encrypt) == FirstMatch(s.slots, index, keyId, encrypt)
    {
      if Matches(s.slots[index], keyId, encrypt) {
        return Some(index);
      }
    }
    return None;
  }

  /** The first slot not in use. */
  method FindFreeSlot(s: Session) returns (found: Option<nat>)
    ensures found.Some? ==> found.value < |s.slots| && !s.slots[found.value].inUse
    ensures found.None? ==> forall i :: 0 <= i < |s.slots| ==> s.slots[i].inUse
  {
    for index := 0 to |s.slots|
      invariant forall i :: 0 <= i < index ==> s.slots[i].inUse
    {
      if !s.slots[index].inUse {
        return Some(index);
      }
    }
    return None;
  }

  /** The session's ghost history catches up with a run its real state has already performed. */
  ghost method Adopt(s: Session, before: Machine, acts: seq<Action>, log: seq<Grant>)
    requires !s.transaction && s.Sound() && Inv(s.TheVault(), before)
    requires Leads(s.TheVault(), before, acts, s.db.committed, s.slots, log)
    modifies s`owners, s`log
    ensures s.Valid() && Refines(s, before, acts) && s.log == log
  {
    var m' := After(s.TheVault(), before, acts);
    s.owners, s.log := m'.owners, m'.log;
    RunInv(s.TheVault(), before, acts);
    assert s.View() == m';
  }

  /**
   The transaction of a give-back. It moves the record back to the start of the slot's unused tail exactly when
   that tail ends at the recorded position; every failure leaves the persisted records alone.
   */
  method GiveBackTail(s: Session, slot: CachedKey) returns (done: bool)
    requires s.Sound() && !s.transaction && Live(slot) && slot.keyId in s.pads
    modifies s`transaction, s.db
    ensures s.Sound() && !s.transaction && old(s.db.faults) <= s.db.faults
    ensures done ==>
      && slot.keyId in old(s.db.committed)
      && TailEnd(slot) == Top(s.db.keys[slot.keyId], old(s.db.committed)[slot.keyId]) == old(s.db.committed)[slot.keyId].used
      && s.db.committed == old(s.db.committed)[slot.keyId :=
           Rewound(s.db.keys[slot.keyId], old(s.db.committed)[slot.keyId], TailStart(slot), slot.workSize)]
    ensures !done ==> s.db.committed == old(s.db.committed)
    ensures old(s.db.Clean()) && s.db.faults == old(s.db.faults) ==>
      && s.db.Clean()
      && (done <==> TailEnd(slot) == Top(s.db.keys[slot.keyId], old(s.db.committed)[slot.keyId]))
  {
    var ok := s.db.Begin();
    if !ok {
      return false;
    }
    s.transaction := true;
    ghost var before := s.db.committed;
    done := Rewind(s, slot);
    if !done {
      Abandon(s);
    }
  }

  /** The steps of a give-back inside its transaction. */
  method Rewind(s: Session, slot: CachedKey) returns (done: bool)
    requires s.Sound() && s.transaction && s.db.open && s.db.working == s.db.committed
    requires Live(slot) && slot.keyId in s.pads
    modifies s`transaction, s.db
    ensures s.Sound() && old(s.db.faults) <= s.db.faults && s.db.attached == old(s.db.attached)
    ensures s.transaction == s.db.open == !done
    ensures done ==>
      && TailEnd(slot) == Top(s.db.keys[slot.keyId], old(s.db.committed)[slot.keyId]) == old(s.db.committed)[slot.keyId].used
      && s.db.committed == old(s.db.committed)[slot.keyId :=
           Rewound(s.db.keys[slot.keyId], old(s.db.committed)[slot.keyId], TailStart(slot), slot.workSize)]
    ensures !done ==> s.db.committed == old(s.db.committed)
    ensures s.db.faults == old(s.db.faults) ==>
      (done <==> TailEnd(slot) == Top(s.db.keys[slot.keyId], old(s.db.committed)[slot.keyId]))
  {
    var found, rec := s.db.GetKeyInfo(slot.keyId);
    if found.None? {
      return false;
    }
    var recordedGlobal := Global(found.value.chunkSize, rec.at);
    if slot.base + slot.workOffset + slot.workSize != recordedGlobal {
      return false;
    }
    var newGlobal := slot.base + slot.workOffset;
    RewoundOk(found.value, s.pads[slot.keyId], rec, newGlobal, slot.workSize);
    var ok := s.db.SetRecord(slot.keyId, Rewound(found.value, rec, newGlobal, slot.workSize));
    if !ok {
      return false;
    }
    ok := s.db.Commit();
    if ok {
      s.transaction := false;
    }
    return ok;
  }

  /** No key has more bytes used than before. */
  ghost predicate Lowered(before: map<KeyId, Record>, after: map<KeyId, Record>)
  {
    before.Keys == after.Keys && forall k :: k in before ==> after[k].used <= before[k].used
  }

  /** The key's used-bytes counter has grown by at most `cost`, or by exactly that. */
  ghost predicate GrownBy(before: map<KeyId, Record>, after: map<KeyId, Record>, keyId: KeyId, cost: nat, exactly: bool)
  {
    && keyId in before && keyId in after && after[keyId].used <= before[keyId].used + cost
    && (exactly ==> after[keyId].used == before[keyId].used + cost)
  }

  /** The key has no entry in the cache, there is a free slot, and the key has room for a whole entry. */
  predicate Uncached(s: Session, records: map<KeyId, Record>, keyId: KeyId)
    reads s`slots, s`mounted
  {
    && s.mounted && s.cacheKeySize > 0 && FirstMatch(s.slots, 0, keyId, true) == None
    && (exists i :: 0 <= i < |s.slots| && !s.slots[i].inUse)
    && Room(s.db.keys, records, s.db.maxAttached, keyId, s.cacheKeySize)
  }

  /** The most that one encryption adds to the used bytes of its key: a whole cache entry, if that is more. */
  function Charge(entry: nat, size: nat): nat
  {
    if size <= entry then entry else size
  }

  /** The bytes that a request gives back before it looks for room: the tail of a slot that is too small. */
  function Returned(s: Session, records: map<KeyId, Record>, keyId: KeyId, size: nat): nat
    reads s`slots, s`mounted
  {
    var small := FirstMatch(s.slots, 0, keyId, true);
    if small.Some? && s.slots[small.value].workSize < size <= s.cacheKeySize && TriesGiveBack(s, s.slots[small.value], true)
       && keyId in records && keyId in s.db.keys
       && TailEnd(s.slots[small.value]) == Top(s.db.keys[keyId], records[keyId])
    then s.slots[small.value].workSize
    else 0
  }

  /** The bytes of the key that nobody has, together with those given back, are enough. */
  predicate Fits(keys: map<KeyId, KeyInfo>, records: map<KeyId, Record>, keyId: KeyId, size: nat, returned: nat)
  {
    keyId in keys && keyId in records && records[keyId].used + size <= keys[keyId].total + returned
  }

  /** An encryption finds a slot with enough bytes left, or enough bytes of the key that nobody has. */
  predicate Grantable(s: Session, records: map<KeyId, Record>, keyId: KeyId, size: nat)
    reads s`slots, s`mounted
  {
    || (size <= s.cacheKeySize && Hit(s.slots, keyId, size, true).Some?)
    || Fits(s.db.keys, records, keyId, size, Returned(s, records, keyId, size))
  }

  /** The key's used-bytes counter went down by what was given back. */
  ghost predicate GivenBack(before: map<KeyId, Record>, after: map<KeyId, Record>, keyId: KeyId, returned: nat)
  {
    keyId in before ==> keyId in after && after[keyId].used + returned == before[keyId].used
  }

  /**
   What an encryption comes to without store faults: it is granted if and only if it was grantable, it costs the key
   no more than its charge, and the first one served from the cache costs a whole entry.
   */
  ghost predicate Untroubled(s: Session, before: map<KeyId, Record>, keyId: KeyId, size: nat, grantable: bool,
                             uncached: bool, code: Code)
    reads s`mounted, s.db
  {
    && (s.mounted && MayEncrypt(s.db.keys, before, s.db.maxAttached, keyId, size) ==> (code == Ok <==> grantable))
    && (code == Ok ==> GrownBy(before, s.db.committed, keyId, Charge(s.cacheKeySize, size), s.cacheKeySize < size))
    && (uncached && 0 < size <= s.cacheKeySize && size <= INT_MAX ==>
          code == Ok && GrownBy(before, s.db.committed, keyId, s.cacheKeySize, true))
  }

  lemma RoomGrants(s: Session, records: map<KeyId, Record>, keyId: KeyId, size: nat)
    ensures Room(s.db.keys, records, s.db.maxAttached, keyId, size) ==> Grantable(s, records, keyId, size)
  {
  }

  /** Without faults the store grants an encryption exactly when the key has room. */
  lemma RoomStatus(s: Session, keyId: KeyId, size: nat, offset: nat)
    requires s.Valid() && s.mounted && MayEncrypt(s.db.keys, s.db.committed, s.db.maxAttached, keyId, size)
    ensures Status(s, s.db.committed, keyId, size, true, offset) == Ok <==>
            Room(s.db.keys, s.db.committed, s.db.maxAttached, keyId, size)
  {
    if Room(s.db.keys, s.db.committed, s.db.maxAttached, keyId, size) {
      var info, rec := s.db.keys[keyId], s.db.committed[keyId];
      assert KeyOk(info, s.pads[keyId], rec);
      if info.chunkSize != 0 {
        FewChunks(info.chunkSize, rec.at, size, s.db.maxAttached);
      }
    }
  }

  /** The first entry of a key is filled without fail. */
  lemma UncachedFills(s: Session, keyId: KeyId, size: nat)
    requires s.Valid() && 0 < size <= s.cacheKeySize && Uncached(s, s.db.committed, keyId)
    ensures FirstMatch(s.slots, 0, keyId, true) == None
    ensures NewSlotStatus(s, size) == Ok && Status(s, s.db.committed, keyId, s.cacheKeySize, true, 0) == Ok
  {
    RoomStatus(s, keyId, s.cacheKeySize, 0);
  }

  /**
   How an encryption's search for a slot ends without faults: with one that had, or has now been given, enough
   bytes, or with nothing but a give-back done. The first entry of a key is always found, at its exact cost.
   */
  ghost predicate Looked(s: Session, before: map<KeyId, Record>, keyId: KeyId, size: nat, returned: nat, hit: bool,
                         uncached: bool, found: bool)
    reads s.db
  {
    && (if found then hit || Fits(s.db.keys, before, keyId, size, returned)
        else Lowered(before, s.db.committed) && GivenBack(before, s.db.committed, keyId, returned))
    && (uncached ==> found && GrownBy(before, s.db.committed, keyId, s.cacheKeySize, true))
  }

  /** A slot that could be filled shows that the request fits. */
  lemma FilledFits(s: Session, before: map<KeyId, Record>, middle: map<KeyId, Record>, keyId: KeyId, size: nat,
                   returned: nat)
    requires s.Valid() && Lowered(before, middle) && GivenBack(before, middle, keyId, returned)
    requires size <= s.cacheKeySize && GrownBy(middle, s.db.committed, keyId, s.cacheKeySize, true)
    ensures Fits(s.db.keys, before, keyId, size, returned)
  {
    assert KeyOk(s.db.keys[keyId], s.pads[keyId], s.db.committed[keyId]);
  }

  /** What the freeing of a slot that is too small returns. */
  lemma ReturnedBy(s: Session, small: Option<nat>, keyId: KeyId, size: nat)
    requires s.Valid() && size <= s.cacheKeySize && small == FirstMatch(s.slots, 0, keyId, true)
    requires small.Some? ==> s.slots[small.value].workSize < size
    ensures Returned(s, s.db.committed, keyId, size) ==
      if small.Some? && TriesGiveBack(s, s.slots[small.value], true) && keyId in s.db.committed && keyId in s.db.keys
         && TailEnd(s.slots[small.value]) == Top(s.db.keys[keyId], s.db.committed[keyId])
      then s.slots[small.value].workSize else 0
    ensures small.Some? ==> keyId in s.db.committed && keyId in s.db.keys
  {
    if small.Some? {
      SlotKeyKnown(s, small.value);
    }
  }

  lemma SlotKeyKnown(s: Session, i: nat)
    requires s.Valid() && i < |s.slots| && s.slots[i].inUse
    ensures s.slots[i].keyId in s.db.committed && s.slots[i].keyId in s.db.keys
  {
    InvSlot(s.TheVault(), s.View(), i);
  }

  lemma Ungrown(records: map<KeyId, Record>, keyId: KeyId, cost: nat)
    requires keyId in records
    ensures GrownBy(records, records, keyId, cost, false)
  {
  }

  lemma GrownAfter(before: map<KeyId, Record>, middle: map<KeyId, Record>, after: map<KeyId, Record>,
                   keyId: KeyId, cost: nat, exactly: bool, limit: nat)
    requires Lowered(before, middle) && GrownBy(middle, after, keyId, cost, exactly) && cost <= limit
    ensures GrownBy(before, after, keyId, limit, false)
  {
  }

  // ---------------------------------------------------------------------------
  // Thrift: with give-back, and while no request is larger than a slot, no byte of a key is lost.

  /** At most one slot is set aside for encrypting under this key, and it ends at the recorded position. */
  ghost predicate Tidy(slots: seq<CachedKey>, records: map<KeyId, Record>, k: KeyId)
  {
    && k in records
    && forall i :: 0 <= i < |slots| && Matches(slots[i], k, true) ==>
         TailEnd(slots[i]) == records[k].used && forall j :: i < j < |slots| ==> !Matches(slots[j], k, true)
  }

  /** The first byte of the key that has not been handed out. */
  function Edge(slots: seq<CachedKey>, records: map<KeyId, Record>, k: KeyId): nat
  {
    var live := FirstMatch(slots, 0, k, true);
    if live.Some? then TailStart(slots[live.value]) else if k in records then records[k].used else 0
  }

  /** The edge has moved on by this many bytes, and nothing else of the key is lost. */
  ghost predicate Spent(s: Session, slots: seq<CachedKey>, records: map<KeyId, Record>, k: KeyId, n: nat)
    reads s`slots, s.db`committed
  {
    Tidy(slots, records, k) ==>
      Tidy(s.slots, s.db.committed, k) && Edge(s.slots, s.db.committed, k) == Edge(slots, records, k) + n
  }

  /** The same slots are set aside for encrypting, with the same bytes. */
  ghost predicate SameLive(before: seq<CachedKey>, after: seq<CachedKey>)
  {
    |before| == |after| && forall i :: 0 <= i < |before| && (Live(before[i]) || Live(after[i])) ==> before[i] == after[i]
  }

  /** The key has no slot any more, and nothing of it is lost. */
  ghost predicate EmptiedAt(slots0: seq<CachedKey>, recs0: map<KeyId, Record>, slots: seq<CachedKey>,
                            recs: map<KeyId, Record>, k: KeyId)
  {
    Tidy(slots0, recs0, k) ==>
      Tidy(slots, recs, k) && Edge(slots, recs, k) == Edge(slots0, recs0, k) && FirstMatch(slots, 0, k, true) == None
  }

  /** The edge has moved on by this many bytes; when no slot was found, the key has none any more. */
  ghost predicate Sought(s: Session, slots: seq<CachedKey>, records: map<KeyId, Record>, k: KeyId, n: nat, found: bool)
    reads s`slots, s.db`committed
  {
    Spent(s, slots, records, k, n) && (!found && Tidy(slots, records, k) ==> FirstMatch(s.slots, 0, k, true) == None)
  }

  /** Nothing of the key is set aside yet, or what is can be given back before this request would go beyond it. */
  predicate Thrifty(s: Session, keyId: KeyId, size: nat)
    reads s`slots, s`mounted
  {
    s.mounted && (FirstMatch(s.slots, 0, keyId, true) == None || (s.resetCachedKeys && size <= s.cacheKeySize))
  }

  /** Of a tidy key, exactly those encryptions are granted that fit behind the edge. */
  lemma TidyGrants(s: Session, k: KeyId, size: nat)
    requires s.Valid() && Thrifty(s, k, size) && Tidy(s.slots, s.db.committed, k) && size > 0
    ensures k in s.db.keys && Edge(s.slots, s.db.committed, k) <= s.db.keys[k].total
    ensures Grantable(s, s.db.committed, k, size) <==> Edge(s.slots, s.db.committed, k) + size <= s.db.keys[k].total
  {
    TopIsUsed(s, k);
  }

  lemma FreedTidy(slots: seq<CachedKey>, records: map<KeyId, Record>, records': map<KeyId, Record>, i: nat, k: KeyId)
    requires i < |slots| && Tidy(slots, records, k) && k in records'
    requires records'[k].used == if Matches(slots[i], k, true) then TailStart(slots[i]) else records[k].used
    ensures Tidy(slots[i := FREE_SLOT], records', k)
    ensures Edge(slots[i := FREE_SLOT], records', k) == Edge(slots, records, k)
    ensures Matches(slots[i], k, true) ==> FirstMatch(slots[i := FREE_SLOT], 0, k, true) == None
  {
    var after := slots[i := FREE_SLOT];
    var live, live' := FirstMatch(slots, 0, k, true), FirstMatch(after, 0, k, true);
    assert !Matches(after[i], k, true);
    if live.Some? && live.value != i {
      assert after[live.value] == slots[live.value];
    }
    if live'.Some? {
      assert slots[live'.value] == after[live'.value];
    }
  }

  lemma FilledTidy(slots: seq<CachedKey>, records: map<KeyId, Record>, records': map<KeyId, Record>, i: nat, k: KeyId,
                   entry: CachedKey)
    requires i < |slots| && Tidy(slots, records, k) && FirstMatch(slots, 0, k, true) == None && k in records'
    requires Matches(entry, k, true) && TailStart(entry) == records[k].used && TailEnd(entry) == records'[k].used
    ensures Tidy(slots[i := entry], records', k) && Edge(slots[i := entry], records', k) == Edge(slots, records, k)
  {
    assert slots[i := entry][i] == entry;
  }

  lemma ServedTidy(slots: seq<CachedKey>, records: map<KeyId, Record>, i: nat, k: KeyId, size: nat)
    requires i < |slots| && Tidy(slots, records, k) && Matches(slots[i], k, true) && 0 < size <= slots[i].workSize
    ensures Tidy(slots[i := Serving(slots[i], size)], records, k)
    ensures Edge(slots[i := Serving(slots[i], size)], records, k) == Edge(slots, records, k) + size
  {
    assert slots[i := Serving(slots[i], size)][i] == Serving(slots[i], size);
  }

  lemma SameLiveMatch(before: seq<CachedKey>, after: seq<CachedKey>, i: nat, k: KeyId)
    requires SameLive(before, after) && i <= |before|
    ensures FirstMatch(before, i, k, true) == FirstMatch(after, i, k, true)
  {
  }

  lemma SameLiveTidy(before: seq<CachedKey>, after: seq<CachedKey>, records: map<KeyId, Record>, k: KeyId)
    requires SameLive(before, after) && Tidy(before, records, k)
    ensures Tidy(after, records, k) && Edge(after, records, k) == Edge(before, records, k)
  {
    SameLiveMatch(before, after, 0, k);
  }

  /** Does freeing this slot attempt a give-back? */
  predicate TriesGiveBack(s: Session, slot: CachedKey, withSession: bool)
    reads s`mounted
  {
    s.resetCachedKeys && withSession && Live(slot) && s.CacheEnabled() && s.mounted
  }

  lemma TopIsUsed(s: Session, k: KeyId)
    requires s.Valid() && k in s.db.committed
    ensures k in s.db.keys && Top(s.db.keys[k], s.db.committed[k]) == s.db.committed[k].used <= s.db.keys[k].total
  {
    assert KeyOk(s.db.keys[k], s.pads[k], s.db.committed[k]);
  }

  /**
   Frees a slot, first returning its unused tail to the key when that is compiled in and possible.
   Without store faults the tail is returned exactly when it ends at the recorded position; the key's used-bytes then
   ends where the bytes served from the slot end.
   */
  method FreeCachedKey(s: Session, i: nat, withSession: bool) returns (ghost acts: seq<Action>)
    requires s.Valid() && i < |s.slots|
    modifies s`transaction, s`slots, s`owners, s`log, s.db
    ensures s.Valid() && Refines(s, old(s.View()), acts) && old(s.db.faults) <= s.db.faults
    ensures s.slots == old(s.slots)[i := FREE_SLOT] && s.log == old(s.log)
    ensures acts == [GiveBack(i)] || acts == [Drop(i)]
    ensures acts == [Drop(i)] ==> s.db.committed == old(s.db.committed)
    ensures Lowered(old(s.db.committed), s.db.committed)
    ensures acts == [GiveBack(i)] ==>
      && old(TriesGiveBack(s, s.slots[i], withSession))
      && GivenBack(old(s.db.committed), s.db.committed, old(s.slots)[i].keyId, old(s.slots)[i].workSize)
    ensures acts == [GiveBack(i)] ==>
      s.resetCachedKeys && withSession && s.mounted && old(s.slots)[i].inUse && old(s.slots)[i].isEncrypt
    ensures var slot := old(s.slots)[i];
      && old(s.db.Clean()) && s.db.faults == old(s.db.faults)
      && s.resetCachedKeys && withSession && s.mounted && slot.inUse && slot.isEncrypt && slot.keyId in old(s.db.committed)
      && slot.base + slot.workOffset + slot.workSize == old(s.db.committed)[slot.keyId].used ==>
        && acts == [GiveBack(i)] && slot.keyId in s.db.committed
        && s.db.committed[slot.keyId].used == slot.base + slot.workOffset
    ensures forall k :: k in old(s.db.committed) && k != old(s.slots)[i].keyId ==>
      k in s.db.committed && s.db.committed[k] == old(s.db.committed)[k]
    ensures old(s.db.Clean()) && s.db.faults == old(s.db.faults) ==>
      && s.db.Clean()
      && (acts == [GiveBack(i)] <==>
          old(TriesGiveBack(s, s.slots[i], withSession))
          && TailEnd(old(s.slots)[i]) == Top(s.db.keys[old(s.slots)[i].keyId], old(s.db.committed)[old(s.slots)[i].keyId]))
  {
    hide Inv, Session.RecordsOk;
    ghost var v, before := s.TheVault(), s.View();
    var slot := s.slots[i];
    InvSlot(v, before, i);
    if slot.inUse {
      TopIsUsed(s, slot.keyId);
    }
    var done := false;
    if TriesGiveBack(s, slot, withSession) {
      done := GiveBackTail(s, slot);
    }
    s.slots := s.slots[i := FREE_SLOT];
    acts := AdoptFree(s, before, i, done);
  }

  /** Enters the freeing of slot i, with or without give-back, into the session's history. */
  ghost method AdoptFree(s: Session, before: Machine, i: nat, done: bool) returns (acts: seq<Action>)
    requires !s.transaction && s.Sound() && Inv(s.TheVault(), before)
    requires i < |before.slots| && s.slots == before.slots[i := FREE_SLOT]
    requires done ==>
      && Live(before.slots[i]) && before.slots[i].keyId in before.recs
      && TailEnd(before.slots[i]) == Top(s.db.keys[before.slots[i].keyId], before.recs[before.slots[i].keyId])
                                  == before.recs[before.slots[i].keyId].used
      && s.db.committed == before.recs[before.slots[i].keyId :=
           Rewound(s.db.keys[before.slots[i].keyId], before.recs[before.slots[i].keyId],
                   TailStart(before.slots[i]), before.slots[i].workSize)]
    requires !done ==> s.db.committed == before.recs
    modifies s`owners, s`log
    ensures s.Valid() && Refines(s, before, acts) && s.log == before.log
    ensures acts == if done then [GiveBack(i)] else [Drop(i)]
  {
    if done {
      GiveBackLeads(s.TheVault(), before, i);
      acts := [GiveBack(i)];
    } else {
      DropLeads(s.TheVault(), before, i);
      acts := [Drop(i)];
    }
    Adopt(s, before, acts, before.log);
  }

  /** Every key that was tidy still is, with the same edge. */
  ghost predicate KeptTidy(slots0: seq<CachedKey>, recs0: map<KeyId, Record>, slots: seq<CachedKey>,
                           recs: map<KeyId, Record>)
  {
    forall k :: Tidy(slots0, recs0, k) ==> Tidy(slots, recs, k) && Edge(slots, recs, k) == Edge(slots0, recs0, k)
  }

  /** Freeing one slot keeps every key tidy: its own, as it is given back, and those it does not touch. */
  lemma FreedKept(slots0: seq<CachedKey>, recs0: map<KeyId, Record>, slots: seq<CachedKey>, recs: map<KeyId, Record>,
                  recs': map<KeyId, Record>, i: nat)
    requires i < |slots| && KeptTidy(slots0, recs0, slots, recs)
    requires forall k :: k in recs && k != slots[i].keyId ==> k in recs' && recs'[k] == recs[k]
    requires slots[i].inUse && slots[i].isEncrypt && slots[i].keyId in recs
             && TailEnd(slots[i]) == recs[slots[i].keyId].used ==>
      slots[i].keyId in recs' && recs'[slots[i].keyId].used == TailStart(slots[i])
    requires !(slots[i].inUse && slots[i].isEncrypt) ==> recs' == recs
    ensures KeptTidy(slots0, recs0, slots[i := FREE_SLOT], recs')
  {
    forall k | Tidy(slots0, recs0, k)
      ensures Tidy(slots[i := FREE_SLOT], recs', k)
      ensures Edge(slots[i := FREE_SLOT], recs', k) == Edge(slots0, recs0, k)
    {
      assert Tidy(slots, recs, k);
      FreedTidy(slots, recs, recs', i, k);
    }
  }

  lemma AllFreed(slots0: seq<CachedKey>, recs0: map<KeyId, Record>, slots: seq<CachedKey>, recs: map<KeyId, Record>)
    requires KeptTidy(slots0, recs0, slots, recs) && forall i :: 0 <= i < |slots| ==> slots[i] == FREE_SLOT
    ensures forall k :: Tidy(slots0, recs0, k) ==> k in recs && recs[k].used == Edge(slots0, recs0, k)
  {
    forall k | Tidy(slots0, recs0, k)
      ensures k in recs && recs[k].used == Edge(slots0, recs0, k)
    {
      assert Tidy(slots, recs, k);
    }
  }

  /** Frees every slot and then the cache itself. */
  method FreeAllCachedKeys(s: Session) returns (ghost acts: seq<Action>)
    requires s.Valid()
    modifies s`transaction, s`slots, s`owners, s`log, s.db
    ensures s.Valid() && Refines(s, old(s.View()), acts) && old(s.db.faults) <= s.db.faults
    ensures s.slots == [] && s.log == old(s.log) && Lowered(old(s.db.committed), s.db.committed)
    ensures old(s.slots) == [] ==> s.db.committed == old(s.db.committed)
    ensures old(s.db.Clean()) && s.db.faults == old(s.db.faults) ==>
      && s.db.Clean()
      && (s.resetCachedKeys && s.mounted ==> forall k :: Tidy(old(s.slots), old(s.db.committed), k) ==>
            k in s.db.committed && s.db.committed[k].used == Edge(old(s.slots), old(s.db.committed), k))
  {
    hide Session.Valid;
    ghost var v, before, faults, clean := s.TheVault(), s.View(), s.db.faults, s.db.Clean();
    acts := [];
    for index := 0 to |s.slots|
      invariant s.Valid() && s.TheVault() == v && Refines(s, before, acts) && old(s.db.faults) <= s.db.faults
      invariant |s.slots| == |old(s.slots)| && s.log == old(s.log) && Lowered(old(s.db.committed), s.db.committed)
      invariant forall i :: 0 <= i < index ==> s.slots[i] == FREE_SLOT
      invariant index == 0 ==> s.db.committed == before.recs
      invariant clean && s.db.faults == faults ==>
        && s.db.Clean()
        && (s.resetCachedKeys && s.mounted ==> KeptTidy(before.slots, before.recs, s.slots, s.db.committed))
    {
      ghost var mid := s.View();
      ghost var more := FreeCachedKey(s, index, true);
      if s.resetCachedKeys && s.mounted && clean && s.db.faults == faults {
        FreedKept(before.slots, before.recs, mid.slots, mid.recs, s.db.committed, index);
      }
      RunConcat(v, before, acts, more);
      acts := acts + more;
    }
    ghost var slots := s.slots;
    DropCache(s);
    if clean && s.db.faults == faults && s.resetCachedKeys && s.mounted {
      AllFreed(before.slots, before.recs, slots, s.db.committed);
    }
    RunConcat(v, before, acts, [Restart(0)]);
    acts := acts + [Restart(0)];
  }

  /** The session loses its cache. */
  method DropCache(s: Session)
    requires s.Valid()
    modifies s`slots, s`owners, s`log
    ensures s.Valid() && Refines(s, old(s.View()), [Restart(0)]) && s.slots == [] && s.log == old(s.log)
  {
    ghost var before := s.View();
    s.slots := [];
    RestartLeads(s.TheVault(), before);
    Adopt(s, before, [Restart(0)], before.log);
  }

  /** The hand-outs after a request: one more when an encryption succeeded, the same otherwise. */
  function LogAfter(log: seq<Grant>, code: Code, encrypt: bool, keyId: KeyId, start: nat, size: nat): seq<Grant>
  {
    if encrypt && code == Ok then log + [Grant(keyId, start, start + size)] else log
  }

  /** What a direct request does to the records is a run: a hand-out, a lost allocation, or nothing. */
  lemma OutcomeLeads(v: Vault, m: Machine, code: Code, encrypt: bool, keyId: KeyId, size: nat, recs: map<KeyId, Record>)
    returns (acts: seq<Action>)
    requires Inv(v, m) && Outcome(v.keys, code, encrypt, keyId, size, m.recs, recs)
    requires (encrypt && code == Ok) || recs != m.recs ==>
      && keyId in m.recs && size > 0 && m.recs[keyId].used + size <= |v.pads[keyId]|
      && keyId in v.keys && Usable(v.keys[keyId], true)
    ensures Leads(v, m, acts, recs, m.slots,
                  LogAfter(m.log, code, encrypt, keyId, if keyId in m.recs then m.recs[keyId].used else 0, size))
    ensures recs == m.recs && !(encrypt && code == Ok) ==> acts == []
  {
    if encrypt && code == Ok {
      GiveLeads(v, m, keyId, size);
      acts := [Give(keyId, size)];
    } else if recs != m.recs {
      LoseLeads(v, m, keyId, size);
      acts := [Lose(keyId, size)];
    } else {
      acts := [];
    }
  }

  /** What the store answers a session about a request on these records when there are no faults. */
  function Status(s: Session, records: map<KeyId, Record>, keyId: KeyId, size: nat, encrypt: bool, offset: nat): Code
    reads s`mounted
  {
    KeyBytesStatus(s.db.keys, records, s.db.maxAttached, s.mounted, false, keyId, size, encrypt, offset)
  }

  /** Reads key bytes straight from the store, entering the allocation into the session's history. */
  method ReadDirect(s: Session, keyId: KeyId, size: nat, encrypt: bool, offset: nat)
    returns (code: Code, start: nat, key: seq<byte>, ghost acts: seq<Action>)
    requires s.Valid()
    modifies s`transaction, s`owners, s`log, s.db
    ensures s.Valid() && Refines(s, old(s.View()), acts) && old(s.db.faults) <= s.db.faults
    ensures code == Ok ==> Served(s.pads, keyId, size, start, key) && (!encrypt ==> start == offset)
    ensures s.log == LogAfter(old(s.log), code, encrypt, keyId, start, size)
    ensures code == Ok ==> keyId in s.db.keys && Usable(s.db.keys[keyId], encrypt)
    ensures !encrypt ==> s.db.committed == old(s.db.committed)
    ensures code == Ok && encrypt ==> GrownBy(old(s.db.committed), s.db.committed, keyId, size, true)
    ensures old(s.db.Clean()) && s.db.faults == old(s.db.faults) ==>
      && s.db.Clean()
      && code == Status(s, old(s.db.committed), keyId, size, encrypt, offset)
      && (code != Ok ==> s.db.committed == old(s.db.committed))
  {
    hide Inv, Session.RecordsOk;
    ghost var before := s.View();
    code, start, key := GetKeyBytes(s, keyId, size, encrypt, offset);
    acts := OutcomeLeads(s.TheVault(), before, code, encrypt, keyId, size, s.db.committed);
    Adopt(s, before, acts, LogAfter(before.log, code, encrypt, keyId, start, size));
  }

  /** Can a new slot be filled at all, leaving the store aside? */
  function NewSlotStatus(s: Session, size: nat): Code
    reads s`slots
  {
    if size == 0 then InvalidArg
    else if size > INT_MAX then Overflow
    else if size > s.cacheKeySize then CacheIsTooSmall
    else if s.slots == [] then NoCache
    else if forall i :: 0 <= i < |s.slots| ==> s.slots[i].inUse then NoStorage
    else Ok
  }

  /** Every answer about a new slot, and the whole condition under which it is given. */
  lemma NewSlotAnswers(s: Session, size: nat)
    ensures var code := NewSlotStatus(s, size);
      && (code == InvalidArg <==> size == 0)
      && (code == Overflow <==> size > 0x7FFF_FFFF)
      && (code == CacheIsTooSmall <==> s.cacheKeySize < size <= 0x7FFF_FFFF)
      && (code == NoCache <==> 0 < size <= 0x7FFF_FFFF && size <= s.cacheKeySize && |s.slots| == 0)
      && (code == NoStorage <==>
            0 < size <= 0x7FFF_FFFF && size <= s.cacheKeySize && |s.slots| > 0
            && !exists i :: 0 <= i < |s.slots| && !s.slots[i].inUse)
      && (code == Ok <==>
            0 < size <= 0x7FFF_FFFF && size <= s.cacheKeySize && exists i :: 0 <= i < |s.slots| && !s.slots[i].inUse)
  {
  }

  /** Fills the first free slot: allocates a range when encrypting, reads a window at `offset` when decrypting. */
  method NewCachedKey(s: Session, keyId: KeyId, size: nat, encrypt: bool, offset: nat)
    returns (code: Code, slot: nat, base: nat, ghost acts: seq<Action>)
    requires s.Valid()
    modifies s`transaction, s`slots, s`owners, s`log, s.db
    ensures s.Valid() && Refines(s, old(s.View()), acts) && old(s.db.faults) <= s.db.faults
    ensures s.log == old(s.log)
    ensures code == Ok ==>
      && 0 < size <= s.cacheKeySize
      && slot < |old(s.slots)| && keyId in s.pads && base + s.cacheKeySize <= |s.pads[keyId]|
      && s.slots == old(s.slots)[slot := Filled(s.TheVault(), keyId, encrypt, base, s.cacheKeySize)]
      && slot < |s.slots| && !old(s.slots)[slot].inUse
      && Matches(s.slots[slot], keyId, encrypt) && s.slots[slot].workSize == s.cacheKeySize
      && (!encrypt ==> base == offset)
      && (encrypt ==> keyId in old(s.db.committed) && base == old(s.db.committed)[keyId].used)
    ensures code == Ok && encrypt ==> GrownBy(old(s.db.committed), s.db.committed, keyId, s.cacheKeySize, true)
    ensures code != Ok ==> s.slots == old(s.slots)
    ensures !encrypt ==> s.db.committed == old(s.db.committed)
    ensures old(s.db.Clean()) && s.db.faults == old(s.db.faults) ==>
      && s.db.Clean()
      && (code != Ok ==> s.db.committed == old(s.db.committed))
      && code == (if old(NewSlotStatus(s, size)) != Ok then old(NewSlotStatus(s, size))
                  else Status(s, old(s.db.committed), keyId, s.cacheKeySize, encrypt, if encrypt then 0 else offset))
  {
    slot, base, acts := 0, offset, [];
    code := NewSlotStatus(s, size);
    if code != Ok {
      return;
    }
    var free := FindFreeSlot(s);
    slot := free.value;
    code, base, acts := FillSlot(s, keyId, encrypt, offset, slot);
  }

  /** Fills a given free slot with a whole cache entry. */
  method FillSlot(s: Session, keyId: KeyId, encrypt: bool, offset: nat, slot: nat)
    returns (code: Code, base: nat, ghost acts: seq<Action>)
    requires s.Valid() && slot < |s.slots| && !s.slots[slot].inUse && s.cacheKeySize > 0
    modifies s`transaction, s`slots, s`owners, s`log, s.db
    ensures s.Valid() && Refines(s, old(s.View()), acts) && old(s.db.faults) <= s.db.faults
    ensures s.log == old(s.log)
    ensures code == Ok ==>
      && keyId in s.pads && base + s.cacheKeySize <= |s.pads[keyId]|
      && s.slots == old(s.slots)[slot := Filled(s.TheVault(), keyId, encrypt, base, s.cacheKeySize)]
      && slot < |s.slots| && !old(s.slots)[slot].inUse
      && Matches(s.slots[slot], keyId, encrypt) && s.slots[slot].workSize == s.cacheKeySize
      && (!encrypt ==> base == offset)
      && (encrypt ==> keyId in old(s.db.committed) && base == old(s.db.committed)[keyId].used)
    ensures code == Ok && encrypt ==> GrownBy(old(s.db.committed), s.db.committed, keyId, s.cacheKeySize, true)
    ensures code != Ok ==> s.slots == old(s.slots)
    ensures !encrypt ==> s.db.committed == old(s.db.committed)
    ensures old(s.db.Clean()) && s.db.faults == old(s.db.faults) ==>
      && s.db.Clean()
      && (code != Ok ==> s.db.committed == old(s.db.committed))
      && code == Status(s, old(s.db.committed), keyId, s.cacheKeySize, encrypt, if encrypt then 0 else offset)
  {
    hide Inv, Session.RecordsOk;
    ghost var before := s.View();
    code, base := FetchIntoSlot(s, keyId, encrypt, offset, slot);
    acts := FillOutcomeLeads(s.TheVault(), before, code, slot, keyId, encrypt, base, s.cacheKeySize, s.db.committed, s.slots);
    Adopt(s, before, acts, before.log);
  }

  /** The real work of filling a slot: fetch a whole entry and store it. */
  method FetchIntoSlot(s: Session, keyId: KeyId, encrypt: bool, offset: nat, slot: nat) returns (code: Code, base: nat)
    requires s.Sound() && !s.transaction && slot < |s.slots| && s.cacheKeySize > 0
    modifies s`transaction, s`slots, s.db
    ensures s.Sound() && !s.transaction && old(s.db.faults) <= s.db.faults
    ensures Outcome(s.db.keys, code, encrypt, keyId, s.cacheKeySize, old(s.db.committed), s.db.committed)
    ensures code == Ok ==>
      && keyId in s.pads && base + s.cacheKeySize <= |s.pads[keyId]| && keyId in old(s.db.committed)
      && s.slots == old(s.slots)[slot := Filled(s.TheVault(), keyId, encrypt, base, s.cacheKeySize)]
      && (if encrypt then base == old(s.db.committed)[keyId].used else base == offset)
      && keyId in s.db.keys && Usable(s.db.keys[keyId], encrypt)
    ensures code == Ok && encrypt ==> GrownBy(old(s.db.committed), s.db.committed, keyId, s.cacheKeySize, true)
    ensures code != Ok ==> s.slots == old(s.slots)
    ensures code != Ok && s.db.committed != old(s.db.committed) ==>
      && keyId in old(s.db.committed) && old(s.db.committed)[keyId].used + s.cacheKeySize <= |s.pads[keyId]|
      && keyId in s.db.keys && Usable(s.db.keys[keyId], true)
    ensures old(s.db.Clean()) && s.db.faults == old(s.db.faults) ==>
      && s.db.Clean()
      && (code != Ok ==> s.db.committed == old(s.db.committed))
      && code == Status(s, old(s.db.committed), keyId, s.cacheKeySize, encrypt, if encrypt then 0 else offset)
  {
    hide Session.RecordsOk, KeyBytesStatus, Outcome, KeyStore.Clean;
    var key;
    code, base, key := GetKeyBytes(s, keyId, s.cacheKeySize, encrypt, if encrypt then 0 else offset);
    if code == Ok {
      s.slots := s.slots[slot := CachedKey(true, keyId, encrypt, base, s.cacheKeySize, s.cacheKeySize, 0, key)];
      OutcomeGrows(s.db.keys, encrypt, keyId, s.cacheKeySize, old(s.db.committed), s.db.committed);
    }
  }

  lemma OutcomeGrows(keys: map<KeyId, KeyInfo>, encrypt: bool, keyId: KeyId, size: nat,
                     before: map<KeyId, Record>, after: map<KeyId, Record>)
    requires Outcome(keys, Ok, encrypt, keyId, size, before, after)
    ensures encrypt ==> GrownBy(before, after, keyId, size, true)
  {
  }

  /** What filling a slot does is a run: a fill, a load, a lost allocation, or nothing. */
  lemma FillOutcomeLeads(v: Vault, m: Machine, code: Code, slot: nat, keyId: KeyId, encrypt: bool, base: nat, size: nat,
                         recs: map<KeyId, Record>, slots: seq<CachedKey>) returns (acts: seq<Action>)
    requires Inv(v, m) && 0 < size && slot < |m.slots| && !m.slots[slot].inUse
    requires Outcome(v.keys, code, encrypt, keyId, size, m.recs, recs)
    requires code == Ok ==>
      && keyId in m.recs && base + size <= |v.pads[keyId]| && (encrypt ==> base == m.recs[keyId].used)
      && keyId in v.keys && Usable(v.keys[keyId], encrypt)
      && slots == m.slots[slot := Filled(v, keyId, encrypt, base, size)]
    requires code != Ok ==> slots == m.slots
    requires code != Ok && recs != m.recs ==>
      && keyId in m.recs && m.recs[keyId].used + size <= |v.pads[keyId]|
      && keyId in v.keys && Usable(v.keys[keyId], true)
    ensures Leads(v, m, acts, recs, slots, m.log)
  {
    if code != Ok {
      acts := OutcomeLeads(v, m, code, encrypt, keyId, size, recs);
    } else if encrypt {
      FillLeads(v, m, slot, keyId, size);
      acts := [Fill(slot, keyId, size)];
    } else {
      LoadLeads(v, m, slot, keyId, base, size);
      acts := [Load(slot, keyId, base, size)];
    }
  }

  /** Hands out the front of an encrypt slot's unused tail. */
  method ServeSlot(s: Session, i: nat, size: nat) returns (start: nat, key: seq<byte>, ghost acts: seq<Action>)
    requires s.Valid() && i < |s.slots| && Live(s.slots[i]) && 0 < size <= s.slots[i].workSize
    modifies s`slots, s`owners, s`log
    ensures s.Valid() && Refines(s, old(s.View()), acts)
    ensures start == TailStart(old(s.slots)[i]) && Served(s.pads, old(s.slots)[i].keyId, size, start, key)
    ensures acts == [Serve(i, size)] && s.slots == old(s.slots)[i := Serving(old(s.slots)[i], size)]
    ensures s.log == old(s.log) + [Grant(old(s.slots)[i].keyId, start, start + size)]
    ensures old(s.slots)[i].keyId in s.db.keys && Usable(s.db.keys[old(s.slots)[i].keyId], true)
  {
    hide Inv, Session.RecordsOk;
    ghost var before := s.View();
    var slot := s.slots[i];
    InvSlot(s.TheVault(), before, i);
    start := slot.base + slot.workOffset;
    key := slot.bytes[slot.workOffset..slot.workOffset + size];
    SliceOfSlice(s.pads[slot.keyId], slot.base, slot.base + slot.size, slot.workOffset, slot.workOffset + size);
    assert Served(s.pads, slot.keyId, size, start, key);
    var left := slot.workSize - size;
    if left == 0 {
      s.slots := s.slots[i := FREE_SLOT];
    } else {
      s.slots := s.slots[i := slot.(workSize := left, workOffset := slot.workOffset + size)];
    }
    assert s.slots == before.slots[i := Serving(slot, size)];
    ServeLeads(s.TheVault(), before, i, size);
    acts := [Serve(i, size)];
    Adopt(s, before, acts, before.log + [Grant(slot.keyId, start, start + size)]);
  }

  /** Is the request strictly inside a decrypt slot's window? */
  predicate InWindow(slot: CachedKey, offset: nat, size: nat)
  {
    slot.base <= offset && offset - slot.base + size < slot.workSize
  }

  /** Reads a window of a decrypt slot. */
  method ReadWindow(s: Session, i: nat, offset: nat, size: nat) returns (key: seq<byte>)
    requires s.Valid() && i < |s.slots| && s.slots[i].inUse && !s.slots[i].isEncrypt && InWindow(s.slots[i], offset, size)
    ensures Served(s.pads, s.slots[i].keyId, size, offset, key)
    ensures s.slots[i].keyId in s.db.keys && Usable(s.db.keys[s.slots[i].keyId], false)
  {
    var slot := s.slots[i];
    assert SlotOk(s.TheVault(), slot);
    var at := offset - slot.base;
    key := slot.bytes[at..at + size];
    SliceOfSlice(s.pads[slot.keyId], slot.base, slot.base + slot.size, at, at + size);
  }

  /** The slot the cache looks at for this request, when it has enough bytes left. */
  function Hit(slots: seq<CachedKey>, keyId: KeyId, size: nat, encrypt: bool): Option<nat>
  {
    var found := FirstMatch(slots, 0, keyId, encrypt);
    if found.Some? && slots[found.value].workSize < size then None else found
  }

  /** Frees a slot that is too small, except that without give-back an encrypt slot is kept rather than wasted. */
  method FreeSmall(s: Session, small: Option<nat>, keyId: KeyId, size: nat, encrypt: bool) returns (ghost acts: seq<Action>)
    requires s.Valid() && 0 < size <= s.cacheKeySize && small == FirstMatch(s.slots, 0, keyId, encrypt)
    requires small.Some? ==> s.slots[small.value].workSize < size
    modifies s`transaction, s`slots, s`owners, s`log, s.db
    ensures s.Valid() && Refines(s, old(s.View()), acts) && old(s.db.faults) <= s.db.faults
    ensures s.log == old(s.log) && |s.slots| == |old(s.slots)|
    ensures Lowered(old(s.db.committed), s.db.committed) && (!encrypt ==> s.db.committed == old(s.db.committed))
    ensures small.None? ==> acts == [] && s.slots == old(s.slots) && s.db.committed == old(s.db.committed)
    ensures small.Some? ==>
      if s.resetCachedKeys || !encrypt then acts == [GiveBack(small.value)] || acts == [Drop(small.value)]
      else acts == [] && s.slots == old(s.slots)
    ensures old(s.db.Clean()) && s.db.faults == old(s.db.faults) ==>
      && s.db.Clean()
      && (encrypt ==> GivenBack(old(s.db.committed), s.db.committed, keyId, old(Returned(s, s.db.committed, keyId, size))))
      && (s.db.committed == old(s.db.committed) || (s.resetCachedKeys && encrypt && StartsWithGiveBack(acts)))
      && (encrypt && old(Thrifty(s, keyId, size)) ==>
            EmptiedAt(old(s.slots), old(s.db.committed), s.slots, s.db.committed, keyId))
    ensures !encrypt ==> SameLive(old(s.slots), s.slots)
  {
    hide Session.Valid, Returned;
    ghost var slots, records, faults, clean := s.slots, s.db.committed, s.db.faults, s.db.Clean();
    acts := [];
    if encrypt {
      ReturnedBy(s, small, keyId, size);
    }
    if small.Some? && (s.resetCachedKeys || !encrypt) {
      acts := FreeCachedKey(s, small.value, true);
      if encrypt && s.mounted && clean && s.db.faults == faults && Tidy(slots, records, keyId) {
        FreedTidy(slots, records, s.db.committed, small.value, keyId);
      }
    }
  }

  /** Replaces a slot that is too small, if there was one, by a newly filled one. */
  method Refill(s: Session, small: Option<nat>, keyId: KeyId, size: nat, encrypt: bool, offset: nat)
    returns (found: Option<nat>, ghost acts: seq<Action>)
    requires s.Valid() && 0 < size <= s.cacheKeySize && small == FirstMatch(s.slots, 0, keyId, encrypt)
    requires small.Some? ==> s.slots[small.value].workSize < size
    modifies s`transaction, s`slots, s`owners, s`log, s.db
    ensures s.Valid() && Refines(s, old(s.View()), acts) && old(s.db.faults) <= s.db.faults
    ensures s.log == old(s.log)
    ensures found.Some? ==>
      found.value < |s.slots| && Matches(s.slots[found.value], keyId, encrypt) && size <= s.slots[found.value].workSize
    ensures !encrypt ==> s.db.committed == old(s.db.committed)
    ensures found.Some? && encrypt ==> GrownBy(old(s.db.committed), s.db.committed, keyId, s.cacheKeySize, small.None?)
    ensures small.Some? ==>
      if s.resetCachedKeys || !encrypt then acts != [] && (acts[0] == GiveBack(small.value) || acts[0] == Drop(small.value))
      else |s.slots| == |old(s.slots)| && s.slots[small.value] == old(s.slots)[small.value]
    ensures old(s.db.Clean()) && s.db.faults == old(s.db.faults) ==>
      && s.db.Clean()
      && (found.None? ==> s.db.committed == old(s.db.committed) || (s.resetCachedKeys && encrypt && StartsWithGiveBack(acts)))
      && (encrypt ==> Looked(s, old(s.db.committed), keyId, size, old(Returned(s, s.db.committed, keyId, size)), false,
                             old(Uncached(s, s.db.committed, keyId)), found.Some?))
      && (encrypt && old(Thrifty(s, keyId, size)) ==>
            Sought(s, old(s.slots), old(s.db.committed), keyId, 0, found.Some?))
    ensures !encrypt ==> SameLive(old(s.slots), s.slots)
  {
    hide Session.Valid, Lowered, GrownBy, GivenBack, Fits, NewSlotStatus, Status, Uncached, Returned;
    hide Tidy, Edge, EmptiedAt, Sought, SameLive;
    ghost var v, before, returned := s.TheVault(), s.View(), Returned(s, s.db.committed, keyId, size);
    if encrypt && Uncached(s, s.db.committed, keyId) {
      UncachedFills(s, keyId, size);
    }
    found := None;
    acts := FreeSmall(s, small, keyId, size, encrypt);
    ghost var first, middle, slots := acts, s.db.committed, s.slots;
    var code, slot, base, more := NewCachedKey(s, keyId, size, encrypt, offset);
    RunConcat(v, before, first, more);
    acts := first + more;
    if code == Ok {
      found := Some(slot);
      if encrypt {
        FilledAfter(s, before.recs, middle, keyId, size, returned, small.None?);
      }
    }
    Refilled(s, before.slots, before.recs, slots, middle, keyId, code == Ok, slot, base, encrypt);
  }

  /** What filling a slot, or failing to, adds to what freeing another has come to. */
  lemma Refilled(s: Session, slots0: seq<CachedKey>, recs0: map<KeyId, Record>, slots: seq<CachedKey>,
                 recs: map<KeyId, Record>, k: KeyId, filled: bool, slot: nat, base: nat, encrypt: bool)
    requires filled ==>
      && slot < |slots| == |s.slots| && !slots[slot].inUse
      && s.slots == slots[slot := s.slots[slot]] && Matches(s.slots[slot], k, encrypt)
    requires filled && encrypt ==>
      && k in recs && TailStart(s.slots[slot]) == base == recs[k].used && s.slots[slot].workSize == s.cacheKeySize
      && GrownBy(recs, s.db.committed, k, s.cacheKeySize, true)
    requires !filled ==> s.slots == slots
    ensures !encrypt && SameLive(slots0, slots) ==> SameLive(slots0, s.slots)
    ensures encrypt && EmptiedAt(slots0, recs0, slots, recs, k) && (!filled ==> s.db.committed == recs) ==>
      Sought(s, slots0, recs0, k, 0, filled)
  {
    if encrypt && filled && Tidy(slots, recs, k) && FirstMatch(slots, 0, k, true) == None {
      FilledTidy(slots, recs, s.db.committed, slot, k, s.slots[slot]);
    }
  }

  lemma FilledAfter(s: Session, before: map<KeyId, Record>, middle: map<KeyId, Record>, keyId: KeyId, size: nat,
                    returned: nat, exactly: bool)
    requires s.Valid() && size <= s.cacheKeySize && Lowered(before, middle) && (exactly ==> middle == before)
    requires GrownBy(middle, s.db.committed, keyId, s.cacheKeySize, true)
    ensures GrownBy(before, s.db.committed, keyId, s.cacheKeySize, exactly)
    ensures GivenBack(before, middle, keyId, returned) ==> Fits(s.db.keys, before, keyId, size, returned)
  {
    hide Session.Valid;
    GrownAfter(before, middle, s.db.committed, keyId, s.cacheKeySize, true, s.cacheKeySize);
    if GivenBack(before, middle, keyId, returned) {
      FilledFits(s, before, middle, keyId, size, returned);
    }
  }

  lemma NotLowered(before: map<KeyId, Record>, after: map<KeyId, Record>, freed: bool)
    requires if freed then Lowered(before, after) else before == after
    ensures Lowered(before, after)
  {
  }

  predicate StartsWithGiveBack(acts: seq<Action>)
  {
    acts != [] && acts[0].GiveBack?
  }

  /** A slot that can serve the request, refilled from the store when needed. */
  method FindOrFill(s: Session, keyId: KeyId, size: nat, encrypt: bool, offset: nat)
    returns (found: Option<nat>, ghost acts: seq<Action>)
    requires s.Valid() && 0 < size <= s.cacheKeySize
    modifies s`transaction, s`slots, s`owners, s`log, s.db
    ensures s.Valid() && Refines(s, old(s.View()), acts) && old(s.db.faults) <= s.db.faults
    ensures s.log == old(s.log)
    ensures found.Some? ==>
      found.value < |s.slots| && Matches(s.slots[found.value], keyId, encrypt) && size <= s.slots[found.value].workSize
    ensures !encrypt ==> s.db.committed == old(s.db.committed)
    ensures found.Some? && encrypt ==> GrownBy(old(s.db.committed), s.db.committed, keyId, s.cacheKeySize, false)
    ensures Hit(old(s.slots), keyId, size, encrypt).Some? ==>
      found == Hit(old(s.slots), keyId, size, encrypt) && acts == [] && s.slots == old(s.slots)
    ensures old(s.db.Clean()) && s.db.faults == old(s.db.faults) ==>
      && s.db.Clean()
      && (found.None? ==> s.db.committed == old(s.db.committed) || (s.resetCachedKeys && encrypt && StartsWithGiveBack(acts)))
      && (encrypt ==> Looked(s, old(s.db.committed), keyId, size, old(Returned(s, s.db.committed, keyId, size)),
                             old(Hit(s.slots, keyId, size, true).Some?), old(Uncached(s, s.db.committed, keyId)),
                             found.Some?))
      && (encrypt && old(Thrifty(s, keyId, size)) ==>
            Sought(s, old(s.slots), old(s.db.committed), keyId, 0, found.Some?))
    ensures !encrypt ==> SameLive(old(s.slots), s.slots)
  {
    hide Session.Valid, Returned, Fits, GivenBack, Lowered;
    acts := [];
    found := FindCachedKey(s, keyId, encrypt);
    if found.Some? {
      SlotKeyKnown(s, found.value);
      Ungrown(s.db.committed, keyId, s.cacheKeySize);
    }
    if found.None? || s.slots[found.value].workSize < size {
      found, acts := Refill(s, found, keyId, size, encrypt, offset);
    }
  }

  /** Serves a request from a slot that has enough bytes; a decrypt window may still not cover it. */
  method ServeFound(s: Session, i: nat, keyId: KeyId, size: nat, encrypt: bool, offset: nat)
    returns (served: bool, start: nat, key: seq<byte>, ghost acts: seq<Action>)
    requires s.Valid() && i < |s.slots| && Matches(s.slots[i], keyId, encrypt) && 0 < size <= s.slots[i].workSize
    modifies s`slots, s`owners, s`log
    ensures s.Valid() && Refines(s, old(s.View()), acts)
    ensures served == (encrypt || InWindow(old(s.slots)[i], offset, size))
    ensures !encrypt ==>
      (served <==> old(s.slots)[i].base <= offset && offset + size < old(s.slots)[i].base + old(s.slots)[i].workSize)
    ensures served ==> Served(s.pads, keyId, size, start, key) && keyId in s.db.keys && Usable(s.db.keys[keyId], encrypt)
    ensures served && encrypt ==> acts == [Serve(i, size)] && start == TailStart(old(s.slots)[i])
    ensures !encrypt ==> acts == [] && start == offset && s.slots == old(s.slots)
    ensures encrypt ==> s.slots == old(s.slots)[i := Serving(old(s.slots)[i], size)]
    ensures s.log == LogAfter(old(s.log), Ok, encrypt, keyId, start, size)
  {
    served, start, key, acts := encrypt, offset, [], [];
    if encrypt {
      start, key, acts := ServeSlot(s, i, size);
    } else if InWindow(s.slots[i], offset, size) {
      key := ReadWindow(s, i, offset, size);
      served := true;
    }
  }

  /**
   How a hit is answered: an encryption takes the front of the slot's tail, a decryption inside the window
   changes nothing; neither touches the store.
   */
  ghost predicate AnsweredByHit(slots: seq<CachedKey>, keyId: KeyId, size: nat, encrypt: bool, offset: nat,
                                served: bool, start: nat, acts: seq<Action>, slots': seq<CachedKey>)
  {
    var hit := Hit(slots, keyId, size, encrypt);
    hit.Some? ==>
      if encrypt then served && acts == [Serve(hit.value, size)] && start == TailStart(slots[hit.value])
      else InWindow(slots[hit.value], offset, size) ==> served && acts == [] && slots' == slots
  }

  /** The part of a request that the cache can answer. */
  method TryCache(s: Session, keyId: KeyId, size: nat, encrypt: bool, offset: nat)
    returns (served: bool, start: nat, key: seq<byte>, ghost acts: seq<Action>)
    requires s.Valid() && 0 < size <= s.cacheKeySize
    modifies s`transaction, s`slots, s`owners, s`log, s.db
    ensures served ==> Served(s.pads, keyId, size, start, key) && (!encrypt ==> start == offset)
    ensures served ==> keyId in s.db.keys && Usable(s.db.keys[keyId], encrypt)
    ensures s.log == LogAfter(old(s.log), if served then Ok else StoreFailure, encrypt, keyId, start, size)
    ensures !encrypt ==> s.db.committed == old(s.db.committed)
    ensures AnsweredByHit(old(s.slots), keyId, size, encrypt, offset, served, start, acts, s.slots)
    ensures served && encrypt ==> GrownBy(old(s.db.committed), s.db.committed, keyId, s.cacheKeySize, false)
    ensures old(s.db.Clean()) && s.db.faults == old(s.db.faults) ==>
      && s.db.Clean()
      && (!served ==> s.db.committed == old(s.db.committed) || (s.resetCachedKeys && encrypt && StartsWithGiveBack(acts)))
      && (encrypt ==> Looked(s, old(s.db.committed), keyId, size, old(Returned(s, s.db.committed, keyId, size)),
                             old(Hit(s.slots, keyId, size, true).Some?), old(Uncached(s, s.db.committed, keyId)),
                             served))
      && (encrypt && old(Thrifty(s, keyId, size)) ==>
            Sought(s, old(s.slots), old(s.db.committed), keyId, if served then size else 0, served))
    ensures !encrypt ==> SameLive(old(s.slots), s.slots)
    ensures s.Valid() && Refines(s, old(s.View()), acts) && old(s.db.faults) <= s.db.faults
  {
    hide Session.Valid, Returned, Fits, GivenBack, GrownBy;
    served, start, key := false, offset, [];
    ghost var v, before := s.TheVault(), s.View();
    var found;
    found, acts := FindOrFill(s, keyId, size, encrypt, offset);
    if found.Some? {
      ghost var first, more := acts, [];
      ghost var slots := s.slots;
      served, start, key, more := ServeFound(s, found.value, keyId, size, encrypt, offset);
      if encrypt && Tidy(slots, s.db.committed, keyId) {
        ServedTidy(slots, s.db.committed, found.value, keyId, size);
      }
      RunConcat(v, before, first, more);
      acts := first + more;
    }
  }

  /**
   Key bytes through the cache: a hit, a refill, a decrypt window, or the store itself. Whichever way is taken,
   the bytes returned are exactly the pad range reported, an encryption hands that range out once, and the
   session has performed a run of the pad ledger. Without store faults an encryption is granted whenever the key
   has room, and any request that the store itself would grant is granted, unless a give-back moved the position
   before it.
   */
  method GetCachedKeyBytes(s: Session, keyId: KeyId, size: nat, encrypt: bool, offset: nat)
    returns (code: Code, start: nat, key: seq<byte>, ghost acts: seq<Action>)
    requires s.Valid()
    modifies s`transaction, s`slots, s`owners, s`log, s.db
    ensures s.Valid() && Refines(s, old(s.View()), acts) && old(s.db.faults) <= s.db.faults
    ensures code == Ok ==> Served(s.pads, keyId, size, start, key) && (!encrypt ==> start == offset)
    ensures code == Ok ==> 0 < size <= INT_MAX
    ensures code == Ok ==>
      keyId in s.db.keys && !s.db.keys[keyId].isRevoked && (encrypt ==> s.db.keys[keyId].isEncrypt)
    ensures s.log == LogAfter(old(s.log), code, encrypt, keyId, start, size)
    ensures !encrypt ==> s.db.committed == old(s.db.committed)
    ensures 0 < size <= s.cacheKeySize && size <= INT_MAX ==>
      AnsweredByHit(old(s.slots), keyId, size, encrypt, offset, code == Ok, start, acts, s.slots)
    ensures old(s.db.Clean()) && s.db.faults == old(s.db.faults) ==>
      && s.db.Clean()
      && (Status(s, old(s.db.committed), keyId, size, encrypt, offset) == Ok ==>
            code == Ok || (s.resetCachedKeys && encrypt && StartsWithGiveBack(acts)))
      && (encrypt ==>
            Untroubled(s, old(s.db.committed), keyId, size, old(Grantable(s, s.db.committed, keyId, size)),
                       old(Uncached(s, s.db.committed, keyId)), code))
      && (encrypt && old(Thrifty(s, keyId, size)) ==>
            Spent(s, old(s.slots), old(s.db.committed), keyId, if code == Ok then size else 0))
    ensures !encrypt ==> SameLive(old(s.slots), s.slots)
  {
    hide Session.Valid, GrownBy, Lowered, MayEncrypt, Fits, GivenBack, Returned, Status, Uncached;
    hide Tidy, Edge, SameLive, Spent, EmptiedAt;
    Unspent(s, keyId);
    ghost var thrifty := encrypt && Thrifty(s, keyId, size);
    start, key, acts := offset, [], [];
    AllowedSize(s, s.db.committed, keyId, size, encrypt, offset);
    if size == 0 {
      return InvalidArg, start, key, acts;
    } else if size > INT_MAX {
      return Overflow, start, key, acts;
    }
    ghost var v, before, returned := s.TheVault(), s.View(), Returned(s, s.db.committed, keyId, size);
    if size <= s.cacheKeySize {
      var served;
      served, start, key, acts := TryCache(s, keyId, size, encrypt, offset);
      if served {
        return Ok, start, key, acts;
      }
    }
    ghost var first, more, middle := acts, [], s.db.committed;
    SoughtEmptied(s, before.slots, before.recs, keyId);
    if s.cacheKeySize < size {
      NothingReturned(s, keyId, size);
    }
    if s.mounted && MayEncrypt(s.db.keys, before.recs, s.db.maxAttached, keyId, size)
       && GivenBack(before.recs, middle, keyId, returned) {
      DirectStatus(s, before.recs, keyId, size, returned, offset);
    }
    code, start, key, more := ReadDirect(s, keyId, size, encrypt, offset);
    RunConcat(v, before, first, more);
    acts := first + more;
    if thrifty && (code == Ok || s.db.committed == middle) {
      SpentDirect(s, before.slots, before.recs, middle, keyId, size, code == Ok);
    }
    if code == Ok && encrypt && (s.cacheKeySize < size || Lowered(before.recs, middle)) {
      NotLowered(before.recs, middle, size <= s.cacheKeySize);
      GrownAfter(before.recs, middle, s.db.committed, keyId, size, true, Charge(s.cacheKeySize, size));
    }
  }

  lemma Unspent(s: Session, k: KeyId)
    ensures SameLive(s.slots, s.slots) && Spent(s, s.slots, s.db.committed, k, 0)
  {
  }

  lemma SoughtEmptied(s: Session, slots: seq<CachedKey>, recs: map<KeyId, Record>, k: KeyId)
    ensures Sought(s, slots, recs, k, 0, false) ==> EmptiedAt(slots, recs, s.slots, s.db.committed, k)
    ensures FirstMatch(slots, 0, k, true) == None && s.slots == slots && s.db.committed == recs ==>
      EmptiedAt(slots, recs, s.slots, s.db.committed, k)
  {
  }

  /** A direct read moves the edge when nothing of the key is set aside. */
  lemma SpentDirect(s: Session, slots: seq<CachedKey>, recs: map<KeyId, Record>, middle: map<KeyId, Record>, k: KeyId,
                    size: nat, granted: bool)
    requires if granted then GrownBy(middle, s.db.committed, k, size, true) else s.db.committed == middle
    ensures EmptiedAt(slots, recs, s.slots, middle, k) ==> Spent(s, slots, recs, k, if granted then size else 0)
  {
  }

  lemma NothingReturned(s: Session, keyId: KeyId, size: nat)
    requires s.cacheKeySize < size
    ensures Returned(s, s.db.committed, keyId, size) == 0
    ensures GivenBack(s.db.committed, s.db.committed, keyId, 0)
  {
  }

  /** After a give-back the store grants an encryption exactly when it fitted before. */
  lemma DirectStatus(s: Session, before: map<KeyId, Record>, keyId: KeyId, size: nat, returned: nat, offset: nat)
    requires s.Valid() && s.mounted && MayEncrypt(s.db.keys, before, s.db.maxAttached, keyId, size)
    requires GivenBack(before, s.db.committed, keyId, returned)
    ensures Status(s, s.db.committed, keyId, size, true, offset) == Ok <==> Fits(s.db.keys, before, keyId, size, returned)
  {
    hide Session.Valid, Status;
    RoomStatus(s, keyId, size, offset);
  }

  /** Only sizes within the engine's limits are ever granted. */
  lemma AllowedSize(s: Session, records: map<KeyId, Record>, keyId: KeyId, size: nat, encrypt: bool, offset: nat)
    ensures Status(s, records, keyId, size, encrypt, offset) == Ok ==> 0 < size <= INT_MAX
    ensures MayEncrypt(s.db.keys, records, s.db.maxAttached, keyId, size) ==> 0 < size <= INT_MAX
  {
  }
}
