/** Transactional allocation and reading of key bytes. */
module Allocator {
  import opened Results
  import opened Bytes
  import opened Chunks
  import opened Division
  import opened Keys
  import opened Planner
  import opened Store
  import opened Attach
  import opened Sessions

  /** What the engine answers to a request, from the key's row alone. */
  function RequestStatus(info: KeyInfo, rec: Record, size: nat, encrypt: bool, offset: nat): Code
  {
    if encrypt && !info.isEncrypt then KeyIsDecryptOnly
    else if info.isRevoked then KeyIsRevoked
    else if info.total < size then KeyIsTooSmall
    else if encrypt && rec.used + size > info.total then InsufficientKeyBytesRemain
    else if !encrypt && offset + size > info.total then OffsetPlusSizeExceedsTotal
    else Ok
  }

  /** Reads the entries in turn into the output buffer at a running cursor. */
  method ReadPlan(db: KeyStore, keyId: KeyId, entries: array<Entry>, count: nat, out: array<byte>) returns (code: Code)
    requires count <= entries.Length && keyId in db.keys
    requires TotalLength(entries[..count]) == out.Length
    modifies out, db`faults
    ensures code == Ok ==>
      && AllReadable(db.keys[keyId].chunks, entries[..count])
      && out[..] == ReadAll(db.keys[keyId].chunks, entries[..count])
      && db.faults == old(db.faults)
    ensures old(db.faults) <= db.faults
    ensures db.faults == old(db.faults) && AllReadable(db.keys[keyId].chunks, entries[..count])
            && AllSmall(entries[..count]) && AllAttached(db.attached, keyId, entries[..count])
            ==> code == Ok
  {
    hide Readable, Piece;
    ghost var chunks, plan := db.keys[keyId].chunks, entries[..count];
    assert plan[0..] == plan;
    var cursor: nat, index: nat := 0, 0;
    while index < count
      invariant 0 <= index <= count
      invariant 0 <= cursor && cursor + TotalLength(plan[index..]) == out.Length
      invariant db.faults == old(db.faults)
      invariant AllReadable(chunks, plan[..index]) && out[..cursor] == ReadAll(chunks, plan[..index])
    {
      var e := entries[index];
      assert plan[index..][0] == e && plan[index..][1..] == plan[index + 1..];
      if e.chunkOffset > INT_MAX {
        return KeyOffsetOverflow;
      }
      if e.length > INT_MAX {
        return Overflow;
      }
      ghost var before := out[..cursor];
      var ok := db.ReadBlob(keyId, e, out, cursor);
      if !ok {
        ReadableAt(chunks, plan, index);
        return StoreFailure;
      }
      ReadSnoc(chunks, plan[..index], e);
      assert plan[..index + 1] == plan[..index] + [e];
      assert out[..cursor + e.length] == before + Piece(chunks, e);
      cursor := cursor + e.length;
      index := index + 1;
    }
    assert plan[..count] == plan && out[..cursor] == out[..];
    return Ok;
  }

  /** Offsets and lengths that the storage library can take. */
  predicate AllSmall(entries: seq<Entry>)
  {
    forall i :: 0 <= i < |entries| ==> entries[i].chunkOffset <= INT_MAX && entries[i].length <= INT_MAX
  }

  predicate AllAttached(attached: set<(KeyId, nat)>, keyId: KeyId, entries: seq<Entry>)
  {
    forall i :: 0 <= i < |entries| ==> (keyId, entries[i].chunkId) in attached
  }

  function TotalLength(entries: seq<Entry>): nat
  {
    if entries == [] then 0 else entries[0].length + TotalLength(entries[1..])
  }

  lemma {:induction false} PlanLength(chunkSize: nat, at: Position, size: nat)
    requires Plannable(chunkSize, at)
    ensures TotalLength(Plan(chunkSize, at, size)) == size
    decreases size, EdgeSteps(chunkSize, at)
  {
    if size > 0 && chunkSize != 0 {
      var take := Take(chunkSize, at, size);
      PlanLength(chunkSize, Advance(chunkSize, at, take), size - take);
    }
  }

  lemma {:induction false} ReadSnoc(chunks: map<nat, seq<byte>>, entries: seq<Entry>, e: Entry)
    requires AllReadable(chunks, entries) && Readable(chunks, e)
    ensures AllReadable(chunks, entries + [e])
    ensures ReadAll(chunks, entries + [e]) == ReadAll(chunks, entries) + Piece(chunks, e)
  {
    if entries == [] {
      assert entries + [e] == [e];
    } else {
      ReadSnoc(chunks, entries[1..], e);
      assert (entries + [e])[1..] == entries[1..] + [e];
    }
  }

  lemma {:induction false} ReadableAt(chunks: map<nat, seq<byte>>, entries: seq<Entry>, i: nat)
    requires i < |entries|
    ensures AllReadable(chunks, entries) ==> Readable(chunks, entries[i])
  {
    if i > 0 {
      ReadableAt(chunks, entries[1..], i - 1);
    }
  }

  /** The planned request as the method sees it: its entries, still unmarked, and where they end. */
  ghost predicate Planned(plan: ChunkPlan, info: KeyInfo, at: Position, size: nat)
    reads plan, plan.entries
  {
    && Plannable(info.chunkSize, at)
    && plan.entries != null && plan.count <= plan.entries.Length
    && plan.entries[..plan.count] == Plan(info.chunkSize, at, size)
    && plan.final == PlanEnd(info.chunkSize, at, size)
  }

  /**
   The part of an encryption request between BEGIN and COMMIT. When it fails it may leave the transaction
   open, with the session's flag set, for the caller to roll back.
   */
  method Allocate(s: Session, keyId: KeyId, size: nat, entries: array<Entry>, count: nat, final: Position,
                  out: array<byte>) returns (code: Code)
    requires count <= entries.Length && keyId in s.db.keys && keyId in s.db.working && s.db.Settled()
    requires TotalLength(entries[..count]) == out.Length && !s.transaction
    modifies s`transaction, s.db`open, s.db`working, s.db`committed, s.db`faults, out
    ensures old(s.db.faults) <= s.db.faults && s.db.Settled()
    ensures code == Ok ==> s.db.faults == old(s.db.faults)
    ensures code == Ok ==>
      && !s.transaction && !s.db.open && !old(s.db.open)
      && s.db.committed == s.db.working == old(s.db.working)[keyId := Record(final, old(s.db.working[keyId]).used + size)]
      && AllReadable(s.db.keys[keyId].chunks, entries[..count])
      && out[..] == ReadAll(s.db.keys[keyId].chunks, entries[..count])
    ensures code != Ok ==>
      && s.db.committed == old(s.db.committed)
      && (s.db.working == old(s.db.working)
          || s.db.working == old(s.db.working)[keyId := Record(final, old(s.db.working[keyId]).used + size)])
      && s.transaction == (s.db.open && !old(s.db.open))
    ensures s.db.faults == old(s.db.faults) && !old(s.db.open) && AllReadable(s.db.keys[keyId].chunks, entries[..count])
            && AllSmall(entries[..count]) && AllAttached(s.db.attached, keyId, entries[..count])
            ==> code == Ok
  {
    hide AllReadable, ReadAll, AllSmall, AllAttached, TotalLength;
    var ok := s.db.Begin();
    if !ok {
      return StoreFailure;
    }
    s.transaction := true;
    code := ReadPlan(s.db, keyId, entries, count, out);
    if code != Ok {
      return;
    }
    ok := s.db.SetRecord(keyId, Record(final, s.db.working[keyId].used + size));
    if !ok {
      return StoreFailure;
    }
    ok := s.db.Commit();
    if !ok {
      return StoreFailure;
    }
    s.transaction := false;
  }

  /** Rolls back an allocation that failed midway. The flag is cleared whether or not the rollback works. */
  method Abandon(s: Session)
    requires s.db.Settled() && (s.transaction ==> s.db.open)
    modifies s`transaction, s.db`open, s.db`working, s.db`faults
    ensures !s.transaction && s.db.Settled() && old(s.db.faults) <= s.db.faults
    ensures s.db.working == old(s.db.working) || s.db.working == s.db.committed
    ensures !old(s.transaction) ==>
      s.db.open == old(s.db.open) && s.db.working == old(s.db.working) && s.db.faults == old(s.db.faults)
    ensures old(s.transaction) && s.db.faults == old(s.db.faults) ==> !s.db.open
  {
    if s.transaction {
      var _ := s.db.Rollback();
      s.transaction := false;
    }
  }

  /**
   What a request may do to the records: encryption that succeeds has advanced the persisted record by exactly
   this request; a failed one left it alone or, having failed after its commit, advanced it; decryption never
   changes it. The connection sees old, new or persisted records, never anything else.
   */
  ghost predicate RecordsMoved(code: Code, encrypt: bool, wasOpen: bool, keyId: KeyId, advanced: Record,
                               committed: map<KeyId, Record>, working: map<KeyId, Record>,
                               committed': map<KeyId, Record>, working': map<KeyId, Record>)
  {
    && (committed' == committed || (encrypt && !wasOpen && committed' == working[keyId := advanced]))
    && (encrypt && code == Ok ==> !wasOpen && committed' == working[keyId := advanced])
    && (working' == working || (encrypt && working' == working[keyId := advanced]) || working' == committed')
  }

  /** An allocation that is rolled back when it fails. */
  method AllocateOrAbandon(s: Session, keyId: KeyId, size: nat, entries: array<Entry>, count: nat, final: Position,
                           out: array<byte>) returns (code: Code)
    requires count <= entries.Length && keyId in s.db.keys && keyId in s.db.working && s.db.Settled()
    requires TotalLength(entries[..count]) == out.Length && !s.transaction
    modifies s`transaction, s.db`open, s.db`working, s.db`committed, s.db`faults, out
    ensures !s.transaction && s.db.Settled() && old(s.db.faults) <= s.db.faults
    ensures code == Ok ==> s.db.faults == old(s.db.faults)
    ensures code == Ok ==>
      && !s.db.open
      && AllReadable(s.db.keys[keyId].chunks, entries[..count])
      && out[..] == ReadAll(s.db.keys[keyId].chunks, entries[..count])
    ensures RecordsMoved(code, true, old(s.db.open), keyId, Record(final, old(s.db.working[keyId]).used + size),
                         old(s.db.committed), old(s.db.working), s.db.committed, s.db.working)
    ensures s.db.faults == old(s.db.faults) && !old(s.db.open) && AllReadable(s.db.keys[keyId].chunks, entries[..count])
            && AllSmall(entries[..count]) && AllAttached(s.db.attached, keyId, entries[..count])
            ==> code == Ok
  {
    code := Allocate(s, keyId, size, entries, count, final, out);
    if code != Ok {
      Abandon(s);
    }
  }

  lemma MarkedAttached(keyId: KeyId, entries: seq<Entry>, first: nat)
    requires Marked(entries, first, |entries|)
    ensures AllAttached(Aliases(keyId, first, |entries|), keyId, entries)
  {
  }

  /** Reads an attached plan, advancing the record when encrypting, and detaches whatever happens. */
  method UsePlan(s: Session, keyId: KeyId, size: nat, encrypt: bool, entries: array<Entry>, count: nat,
                 final: Position, ghost first: nat, out: array<byte>) returns (code: Code)
    requires count <= entries.Length && Marked(entries[..count], first, count)
    requires keyId in s.db.keys && keyId in s.db.working && s.db.Settled() && !s.transaction
    requires TotalLength(entries[..count]) == out.Length
    modifies s`transaction, s.db, entries, out
    ensures !s.transaction && s.db.Settled() && old(s.db.faults) <= s.db.faults
    ensures code == Ok ==> s.db.faults == old(s.db.faults)
    ensures Marked(entries[..count], first, 0)
    ensures code == Ok ==>
      && old(AllReadable(s.db.keys[keyId].chunks, entries[..count]))
      && out[..] == old(ReadAll(s.db.keys[keyId].chunks, entries[..count]))
    ensures RecordsMoved(code, encrypt, old(s.db.open), keyId, Record(final, old(s.db.working[keyId]).used + size),
                         old(s.db.committed), old(s.db.working), s.db.committed, s.db.working)
    ensures s.db.faults == old(s.db.faults) && !old(s.db.open) && old(s.db.attached) == Aliases(keyId, first, count)
            && old(AllReadable(s.db.keys[keyId].chunks, entries[..count])) && old(AllSmall(entries[..count])) ==>
            code == Ok && s.db.Clean()
  {
    hide AllReadable, ReadAll, AllSmall, TotalLength, Marked, SamePlan, AllAttached, Aliases;
    MarkedAttached(keyId, entries[..count], first);
    if encrypt {
      code := AllocateOrAbandon(s, keyId, size, entries, count, final, out);
    } else {
      code := ReadPlan(s.db, keyId, entries, count, out);
    }
    var detached := DetachChunkPlan(s.db, keyId, entries, count, first, count);
    if code == Ok {
      code := detached;
    }
  }

  /**
   Attaches the planned chunks, reads them, advances the record when encrypting, and detaches.
   On every exit the session's transaction flag is clear and no entry is marked attached.
   Without store faults it succeeds exactly when the connection can attach all the chunks at once.
   */
  method RunPlan(s: Session, keyId: KeyId, size: nat, encrypt: bool, plan: ChunkPlan, ghost at: Position)
    returns (code: Code, key: seq<byte>)
    requires keyId in s.db.keys && keyId in s.db.working && s.db.Settled() && !s.transaction && size > 0
    requires Planned(plan, s.db.keys[keyId], at, size)
    modifies s`transaction, s.db, plan.entries
    ensures !s.transaction && s.db.Settled() && old(s.db.faults) <= s.db.faults
    ensures code == Ok ==> s.db.faults == old(s.db.faults)
    ensures Marked(plan.entries[..plan.count], at.chunkId, 0)
    ensures code == Ok ==>
      && AllReadable(s.db.keys[keyId].chunks, Plan(s.db.keys[keyId].chunkSize, at, size))
      && key == ReadAll(s.db.keys[keyId].chunks, Plan(s.db.keys[keyId].chunkSize, at, size))
    ensures RecordsMoved(code, encrypt, old(s.db.open), keyId, Record(plan.final, old(s.db.working[keyId]).used + size),
                         old(s.db.committed), old(s.db.working), s.db.committed, s.db.working)
    ensures old(s.db.Clean()) && s.db.faults == old(s.db.faults)
            && AllReadable(s.db.keys[keyId].chunks, Plan(s.db.keys[keyId].chunkSize, at, size))
            && AllSmall(Plan(s.db.keys[keyId].chunkSize, at, size)) ==>
            && s.db.Clean()
            && code == (if Attachable(s.db.keys[keyId], s.db.maxAttached, at.chunkId, plan.count) then Ok else StoreFailure)
            && (code != Ok ==> s.db.committed == old(s.db.committed))
  {
    hide AllSmall, AllReadable, ReadAll, Marked, SamePlan, Plan, PlanEnd, Attachable, TotalLength, Aliases;
    ghost var entries := Plan(s.db.keys[keyId].chunkSize, at, size);
    PlanMarked(s.db.keys[keyId].chunkSize, at, size);
    PlanLength(s.db.keys[keyId].chunkSize, at, size);
    key := [];
    code := AttachChunkPlan(s.db, keyId, plan.entries, plan.count, at.chunkId);
    if code != Ok {
      return;
    }
    SameReads(s.db.keys[keyId].chunks, plan.entries[..plan.count], entries);
    var out := new byte[size];
    code := UsePlan(s, keyId, size, encrypt, plan.entries, plan.count, plan.final, at.chunkId, out);
    if code == Ok {
      key := out[..];
    }
  }

  lemma PlanMarked(chunkSize: nat, at: Position, size: nat)
    requires Plannable(chunkSize, at)
    ensures Marked(Plan(chunkSize, at, size), at.chunkId, 0)
  {
    forall i | 0 <= i < |Plan(chunkSize, at, size)|
      ensures Plan(chunkSize, at, size)[i].chunkId == at.chunkId + i && !Plan(chunkSize, at, size)[i].attached
    {
      EntryShape(chunkSize, at, size, i);
    }
  }

  /** Attachment marks do not change what a plan reads. */
  lemma {:induction false} SameReads(chunks: map<nat, seq<byte>>, a: seq<Entry>, b: seq<Entry>)
    requires SamePlan(a, b)
    ensures TotalLength(a) == TotalLength(b) && (AllReadable(chunks, a) <==> AllReadable(chunks, b))
    ensures AllReadable(chunks, a) ==> ReadAll(chunks, a) == ReadAll(chunks, b)
    ensures AllSmall(a) <==> AllSmall(b)
  {
    assert forall i :: 0 <= i < |a| ==> a[i].chunkOffset == Cleared(a[i]).chunkOffset && a[i].length == Cleared(a[i]).length;
    assert forall i :: 0 <= i < |b| ==> b[i].chunkOffset == Cleared(b[i]).chunkOffset && b[i].length == Cleared(b[i]).length;
    if a != [] {
      assert Cleared(a[0]) == Cleared(b[0]);
      assert SamePlan(a[1..], b[1..]);
      SameReads(chunks, a[1..], b[1..]);
    }
  }

  /** What the engine answers when the store has no faults. */
  function KeyBytesStatus(keys: map<KeyId, KeyInfo>, records: map<KeyId, Record>, maxAttached: nat, mounted: bool,
                          pending: bool, keyId: KeyId, size: nat, encrypt: bool, offset: nat): Code
  {
    if !mounted then NoMountedDatabase
    else if pending then TransactionPending
    else if size == 0 then InvalidArg
    else if size > INT_MAX then Overflow
    else if keyId !in keys || keyId !in records then StoreFailure
    else
      var info, rec := keys[keyId], records[keyId];
      if RequestStatus(info, rec, size, encrypt, offset) != Ok then RequestStatus(info, rec, size, encrypt, offset)
      else PlannedStatus(info, maxAttached, StartAt(info, rec, encrypt, offset), size)
  }

  /** The pad range a request reads. */
  function RangeStart(rec: Record, encrypt: bool, offset: nat): nat
  {
    if encrypt then rec.used else offset
  }

  /** What a caller gets from a successful request: exactly its range of the pad. */
  ghost predicate Served(pads: map<KeyId, seq<byte>>, keyId: KeyId, size: nat, start: nat, key: seq<byte>)
  {
    keyId in pads && start + size <= |pads[keyId]| && key == pads[keyId][start..start + size]
  }

  /** The outcome of a request on the persisted records: unchanged, or one key advanced by `size`. */
  ghost predicate Outcome(keys: map<KeyId, KeyInfo>, code: Code, encrypt: bool, keyId: KeyId, size: nat,
                          before: map<KeyId, Record>, after: map<KeyId, Record>)
  {
    var advanced := keyId in before && keyId in keys && Plannable(keys[keyId].chunkSize, before[keyId].at)
      && after == before[keyId := Advanced(keys[keyId], before[keyId], size)];
    if encrypt && code == Ok then advanced else after == before || (encrypt && advanced)
  }

  /**
   Reads `size` bytes of a key: the next unused ones when encrypting, those at `offset` when decrypting.
   Success returns exactly that range of the pad.
   */
  method GetKeyBytes(s: Session, keyId: KeyId, size: nat, encrypt: bool, offset: nat)
    returns (code: Code, start: nat, key: seq<byte>)
    requires s.Sound()
    modifies s`transaction, s.db
    ensures s.Sound() && s.transaction == old(s.transaction) && old(s.db.faults) <= s.db.faults
    ensures code == Ok ==> s.db.faults == old(s.db.faults)
    ensures code == Ok ==>
      && old(s.mounted) && !s.transaction && 0 < size <= INT_MAX && keyId in old(s.db.working)
      && start == RangeStart(old(s.db.working)[keyId], encrypt, offset)
      && Served(s.pads, keyId, size, start, key)
    ensures code == Ok ==>
      keyId in s.db.keys && !s.db.keys[keyId].isRevoked && (encrypt ==> s.db.keys[keyId].isEncrypt)
    ensures code == Ok && encrypt ==> !old(s.db.open) && keyId in old(s.db.committed)
    ensures Outcome(s.db.keys, code, encrypt, keyId, size, old(s.db.committed), s.db.committed)
    ensures code != Ok && s.db.committed != old(s.db.committed) ==>
      && keyId in old(s.db.committed) && size > 0 && old(s.db.committed)[keyId].used + size <= |s.pads[keyId]|
      && keyId in s.db.keys && Usable(s.db.keys[keyId], true)
    ensures old(s.db.Clean()) && s.db.faults == old(s.db.faults) ==>
      && s.db.Clean()
      && code == KeyBytesStatus(s.db.keys, old(s.db.committed), s.db.maxAttached, old(s.mounted), old(s.transaction),
                                keyId, size, encrypt, offset)
      && (code != Ok ==> s.db.committed == old(s.db.committed))
  {
    hide Holds, Plan, PlanEnd, Global, Session.RecordsOk;
    start, key := offset, [];
    if !s.mounted {
      return NoMountedDatabase, start, key;
    }
    if s.transaction {
      return TransactionPending, start, key;
    }
    if size == 0 {
      return InvalidArg, start, key;
    } else if size > INT_MAX {
      return Overflow, start, key;
    }
    var found, rec := s.db.GetKeyInfo(keyId);
    if found.None? {
      return StoreFailure, start, key;
    }
    RecordOf(s, keyId);
    var info := found.value;
    code := RequestStatus(info, rec, size, encrypt, offset);
    if code != Ok {
      return;
    }
    code, start, key := ReadRange(s, keyId, info, rec, size, encrypt, offset);
  }

  lemma RecordOf(s: Session, keyId: KeyId)
    requires s.RecordsOk(s.db.working) && keyId in s.db.working
    ensures keyId in s.pads && keyId in s.db.keys && KeyOk(s.db.keys[keyId], s.pads[keyId], s.db.working[keyId])
  {
  }

  /** Plans and runs a request that the key's row allows. */
  method ReadRange(s: Session, keyId: KeyId, info: KeyInfo, rec: Record, size: nat, encrypt: bool, offset: nat)
    returns (code: Code, start: nat, key: seq<byte>)
    requires s.Sound() && !s.transaction && 0 < size <= INT_MAX
    requires keyId in s.db.keys && keyId in s.db.working && info == s.db.keys[keyId] && rec == s.db.working[keyId]
    requires RangeStart(rec, encrypt, offset) + size <= info.total
    modifies s`transaction, s.db
    ensures s.Sound() && !s.transaction && old(s.db.faults) <= s.db.faults
    ensures code == Ok ==> s.db.faults == old(s.db.faults)
    ensures code == Ok ==>
      && start == RangeStart(rec, encrypt, offset)
      && key == s.pads[keyId][start..start + size]
    ensures code == Ok && encrypt ==> !old(s.db.open)
    ensures s.db.committed == old(s.db.committed)
      || (encrypt && !old(s.db.open) && s.db.committed == old(s.db.committed)[keyId := Advanced(info, rec, size)])
    ensures code == Ok && encrypt ==> s.db.committed == old(s.db.committed)[keyId := Advanced(info, rec, size)]
    ensures old(s.db.Clean()) && s.db.faults == old(s.db.faults) ==>
      && s.db.Clean()
      && code == PlannedStatus(info, s.db.maxAttached, StartAt(info, rec, encrypt, offset), size)
      && (code != Ok ==> s.db.committed == old(s.db.committed))
  {
    hide Holds, Plan, PlanEnd, Global, Session.RecordsOk;
    RecordOf(s, keyId);
    start, key := offset, [];
    var at := StartAt(info, rec, encrypt, offset);
    var plan := new ChunkPlan();
    code := PlanChunkRange(info.chunkSize, at, size, plan);
    if code != Ok {
      return;
    }
    var globalStart := Global(info.chunkSize, at);
    if encrypt {
      assert globalStart == rec.used;
      start := globalStart;
    }
    code, key := RunRange(s, keyId, size, encrypt, offset, plan);
  }

  /** Runs a planned request; success returns its range of the pad. */
  method RunRange(s: Session, keyId: KeyId, size: nat, encrypt: bool, offset: nat, plan: ChunkPlan)
    returns (code: Code, key: seq<byte>)
    requires s.Sound() && !s.transaction && 0 < size <= INT_MAX && keyId in s.db.keys && keyId in s.db.working
    requires RangeStart(s.db.working[keyId], encrypt, offset) + size <= |s.pads[keyId]|
    requires Planned(plan, s.db.keys[keyId], StartAt(s.db.keys[keyId], s.db.working[keyId], encrypt, offset), size)
    modifies s`transaction, s.db, plan.entries
    ensures s.Sound() && !s.transaction && old(s.db.faults) <= s.db.faults
    ensures code == Ok ==> s.db.faults == old(s.db.faults)
    ensures code == Ok ==>
      var from := RangeStart(old(s.db.working[keyId]), encrypt, offset); key == s.pads[keyId][from..from + size]
    ensures s.db.committed == old(s.db.committed)
      || (encrypt && !old(s.db.open) && s.db.committed == old(s.db.committed)
            [keyId := Advanced(s.db.keys[keyId], old(s.db.working[keyId]), size)])
    ensures code == Ok && encrypt ==> !old(s.db.open) && s.db.committed == old(s.db.committed)
            [keyId := Advanced(s.db.keys[keyId], old(s.db.working[keyId]), size)]
    ensures old(s.db.Clean()) && s.db.faults == old(s.db.faults) ==>
      && s.db.Clean()
      && code == (if old(plan.count) <= s.db.maxAttached then Ok else StoreFailure)
      && (code != Ok ==> s.db.committed == old(s.db.committed))
  {
    hide Holds, Plan, PlanEnd, Global;
    ghost var info, rec, c, w, wasOpen := s.db.keys[keyId], s.db.working[keyId], s.db.committed, s.db.working, s.db.open;
    ghost var at := StartAt(info, rec, encrypt, offset);
    RequestFits(info, s.pads[keyId], rec, encrypt, offset, size);
    code, key := RunPlan(s, keyId, size, encrypt, plan, at);
    MovedOk(s, code, encrypt, wasOpen, keyId, size, at, c, w);
  }

  /** A request inside the pad can be planned, read and stored back. */
  lemma RequestFits(info: KeyInfo, pad: seq<byte>, rec: Record, encrypt: bool, offset: nat, size: nat)
    requires KeyOk(info, pad, rec) && RangeStart(rec, encrypt, offset) + size <= |pad| && size <= INT_MAX
    ensures var at := StartAt(info, rec, encrypt, offset); var from := RangeStart(rec, encrypt, offset);
      && Plannable(info.chunkSize, at)
      && (encrypt ==> Global(info.chunkSize, at) == from)
      && AllReadable(info.chunks, Plan(info.chunkSize, at, size))
      && ReadAll(info.chunks, Plan(info.chunkSize, at, size)) == pad[from..from + size]
      && AllSmall(Plan(info.chunkSize, at, size))
      && ChunksExist(info.chunks, at.chunkId, |Plan(info.chunkSize, at, size)|)
  {
    hide Plan, ReadAll, AllReadable, AllSmall, ChunksExist, Locate, Global, Plannable;
    StartReads(info, pad, rec, encrypt, offset, size);
    var at := StartAt(info, rec, encrypt, offset);
    assert Plannable(info.chunkSize, at) && AllReadable(info.chunks, Plan(info.chunkSize, at, size));
    SmallPlan(info, at, size);
  }

  /** What the planner and the connection make of a request, without faults. */
  function PlannedStatus(info: KeyInfo, maxAttached: nat, at: Position, size: nat): Code
  {
    if PlanStatus(info.chunkSize, at, size) != Ok then PlanStatus(info.chunkSize, at, size)
    else if Plannable(info.chunkSize, at) && |Plan(info.chunkSize, at, size)| > maxAttached then StoreFailure
    else Ok
  }

  /**
   When a request in whole chunks is refused: the planner takes up to 499 of them, the connection those it can attach.
   `room` is what is left of the first chunk.
   */
  lemma PlannedAnswers(info: KeyInfo, maxAttached: nat, at: Position, size: nat)
    requires Plannable(info.chunkSize, at) && size > 0 && maxAttached > 0
    ensures info.chunkSize == 0 ==> PlannedStatus(info, maxAttached, at, size) == Ok
    ensures var code, room := PlannedStatus(info, maxAttached, at, size), info.chunkSize - at.offset;
      info.chunkSize != 0 ==>
        && (code == ChunkSizeOverflow <==> size > room + 498 * info.chunkSize)
        && (code == StoreFailure <==> room + (maxAttached - 1) * info.chunkSize < size <= room + 498 * info.chunkSize)
        && (code == Ok <==> size <= room + 498 * info.chunkSize && size <= room + (maxAttached - 1) * info.chunkSize)
  {
    hide Plan, Needed;
    if info.chunkSize == 0 {
      WholePlan(at, size);
    } else {
      CapacityExact(info.chunkSize, at, size);
      NeededAbove(info.chunkSize, at, size, 498);
      NeededAbove(info.chunkSize, at, size, maxAttached - 1);
    }
  }

  lemma NeededAbove(chunkSize: nat, at: Position, size: nat, q: nat)
    requires chunkSize != 0 && at.offset <= chunkSize
    ensures Needed(chunkSize, at, size) > q + 2 <==> size > chunkSize - at.offset + q * chunkSize
  {
    var firstRoom := chunkSize - at.offset;
    if size > firstRoom {
      RoundedUp(size - firstRoom, chunkSize, q);
    } else {
      assert q * chunkSize >= 0;
    }
  }

  lemma WholePlan(at: Position, size: nat)
    requires size > 0
    ensures |Plan(0, at, size)| == 1
  {
  }

  /** Every answer to a request without store faults, and the whole condition under which it is given. */
  lemma KeyBytesAnswers(keys: map<KeyId, KeyInfo>, records: map<KeyId, Record>, maxAttached: nat, mounted: bool,
                        pending: bool, keyId: KeyId, size: nat, encrypt: bool, offset: nat)
    requires maxAttached > 0
    requires keyId in keys && keyId in records && encrypt ==> Plannable(keys[keyId].chunkSize, records[keyId].at)
    ensures var code := KeyBytesStatus(keys, records, maxAttached, mounted, pending, keyId, size, encrypt, offset);
      && (code == NoMountedDatabase <==> !mounted)
      && (code == TransactionPending <==> mounted && pending)
      && (code == InvalidArg <==> mounted && !pending && size == 0)
      && (code == Overflow <==> mounted && !pending && size > 0x7FFF_FFFF)
    ensures var code := KeyBytesStatus(keys, records, maxAttached, mounted, pending, keyId, size, encrypt, offset);
      mounted && !pending && 0 < size <= 0x7FFF_FFFF ==>
        if keyId !in keys || keyId !in records then code == StoreFailure
        else
          var info, used := keys[keyId], records[keyId].used;
          var usable := !info.isRevoked && (info.isEncrypt || !encrypt);
          var fits := usable && (if encrypt then used else offset) + size <= info.total;
          var room := info.chunkSize - if info.chunkSize == 0 then 0
                                       else if encrypt then records[keyId].at.offset else offset % info.chunkSize;
          && (code == KeyIsDecryptOnly <==> encrypt && !info.isEncrypt)
          && (code == KeyIsRevoked <==> info.isRevoked && !(encrypt && !info.isEncrypt))
          && (code == KeyIsTooSmall <==> usable && info.total < size)
          && (code == InsufficientKeyBytesRemain <==> usable && size <= info.total && encrypt && used + size > info.total)
          && (code == OffsetPlusSizeExceedsTotal <==>
                usable && size <= info.total && !encrypt && offset + size > info.total)
          && (code == ChunkSizeOverflow <==> fits && info.chunkSize != 0 && size > room + 498 * info.chunkSize)
          && (code == StoreFailure <==>
                fits && info.chunkSize != 0
                && room + (maxAttached - 1) * info.chunkSize < size <= room + 498 * info.chunkSize)
          && (code == Ok <==>
                fits && (info.chunkSize != 0 ==>
                           size <= room + 498 * info.chunkSize && size <= room + (maxAttached - 1) * info.chunkSize))
  {
    hide PlannedStatus;
    if keyId in keys && keyId in records && size > 0 {
      var info := keys[keyId];
      LocateGlobal(info.chunkSize, offset);
      PlannedAnswers(info, maxAttached, StartAt(info, records[keyId], encrypt, offset), size);
    }
  }

  lemma MovedOk(s: Session, code: Code, encrypt: bool, wasOpen: bool, keyId: KeyId, size: nat, at: Position,
                c: map<KeyId, Record>, w: map<KeyId, Record>)
    requires s.RecordsOk(c) && s.RecordsOk(w) && keyId in w && (!wasOpen ==> w == c)
    requires Plannable(s.db.keys[keyId].chunkSize, at)
    requires encrypt ==> at == w[keyId].at && w[keyId].used + size <= |s.pads[keyId]|
    requires var final := PlanEnd(s.db.keys[keyId].chunkSize, at, size);
             RecordsMoved(code, encrypt, wasOpen, keyId, Record(final, w[keyId].used + size), c, w,
                          s.db.committed, s.db.working)
    ensures s.RecordsOk(s.db.committed) && s.RecordsOk(s.db.working)
    ensures s.db.committed == c
      || (encrypt && !wasOpen && s.db.committed == c[keyId := Advanced(s.db.keys[keyId], w[keyId], size)])
    ensures code == Ok && encrypt ==>
      !wasOpen && s.db.committed == c[keyId := Advanced(s.db.keys[keyId], w[keyId], size)]
  {
    hide Holds, Plan, PlanEnd, Global;
    if encrypt {
      AdvancedOk(s.db.keys[keyId], s.pads[keyId], w[keyId], size);
    }
  }

  /** Chunks that the storage library can hold are never read beyond its limits. */
  lemma SmallPlan(info: KeyInfo, at: Position, size: nat)
    requires Plannable(info.chunkSize, at) && size <= INT_MAX
    requires AllReadable(info.chunks, Plan(info.chunkSize, at, size))
    requires forall i :: i in info.chunks ==> |info.chunks[i]| <= INT_MAX
    ensures AllSmall(Plan(info.chunkSize, at, size))
    ensures ChunksExist(info.chunks, at.chunkId, |Plan(info.chunkSize, at, size)|)
  {
    var entries := Plan(info.chunkSize, at, size);
    PlanMarked(info.chunkSize, at, size);
    SmallEntries(info.chunks, entries, at.chunkId);
  }

  lemma {:induction false} SmallEntries(chunks: map<nat, seq<byte>>, entries: seq<Entry>, first: nat)
    requires AllReadable(chunks, entries) && Marked(entries, first, 0)
    requires forall i :: i in chunks ==> |chunks[i]| <= INT_MAX
    ensures AllSmall(entries) && ChunksExist(chunks, first, |entries|)
  {
    var n := |entries|;
    if n > 0 {
      forall i | 0 <= i < n
        ensures Readable(chunks, entries[i])
      {
        ReadableAt(chunks, entries, i);
      }
      ReadablePrefix(chunks, entries[..n - 1], entries[n - 1]);
      assert entries[..n - 1] + [entries[n - 1]] == entries;
      SmallEntries(chunks, entries[..n - 1], first);
    }
  }

  lemma {:induction false} ReadablePrefix(chunks: map<nat, seq<byte>>, entries: seq<Entry>, e: Entry)
    ensures AllReadable(chunks, entries + [e]) ==> AllReadable(chunks, entries)
  {
    if entries != [] {
      assert (entries + [e])[1..] == entries[1..] + [e];
      ReadablePrefix(chunks, entries[1..], e);
    }
  }

  /**
   A key whose every range of `size` bytes can be read: not revoked, and in one chunk or in chunks large enough
   that no such range needs more of them than the planner and the connection allow.
   */
  predicate CanRead(keys: map<KeyId, KeyInfo>, maxAttached: nat, keyId: KeyId, size: nat)
  {
    && keyId in keys && !keys[keyId].isRevoked
    && (keys[keyId].chunkSize == 0 || size <= (maxAttached - 2) * keys[keyId].chunkSize)
    && 2 <= maxAttached < MAX_CHUNK_COUNT
  }

  /** A range of at most (limit - 2) chunk sizes touches fewer than `limit` chunks. */
  lemma FewChunks(chunkSize: nat, at: Position, size: nat, limit: nat)
    requires chunkSize > 0 && at.offset <= chunkSize && size > 0
    requires 2 <= limit < MAX_CHUNK_COUNT && size <= (limit - 2) * chunkSize
    ensures |Plan(chunkSize, at, size)| <= limit && PlanStatus(chunkSize, at, size) == Ok
  {
    CapacityExact(chunkSize, at, size);
    var firstRoom := chunkSize - at.offset;
    if size > firstRoom {
      QuotientBound(size - firstRoom, chunkSize, limit - 2);
    }
  }

  /** The key may encrypt, and ranges of this size can be read. */
  predicate MayEncrypt(keys: map<KeyId, KeyInfo>, records: map<KeyId, Record>, maxAttached: nat, keyId: KeyId, size: nat)
  {
    CanRead(keys, maxAttached, keyId, size) && keyId in records && keys[keyId].isEncrypt && 0 < size <= INT_MAX
  }

  /** The key may encrypt and has `size` unused bytes that can be read. */
  predicate Room(keys: map<KeyId, KeyInfo>, records: map<KeyId, Record>, maxAttached: nat, keyId: KeyId, size: nat)
  {
    MayEncrypt(keys, records, maxAttached, keyId, size) && records[keyId].used + size <= keys[keyId].total
  }
}
