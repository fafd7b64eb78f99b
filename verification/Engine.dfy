/** The public calls of the engine that use the pad. */
module Engine {
  import opened Results
  import opened Bytes
  import opened XorLoop
  import opened Chunks
  import opened Keys
  import opened Ledger
  import opened LedgerRuns
  import opened Sessions
  import opened Allocator
  import opened Cache

  /** The checks both directions share, in the order they are made. */
  function CallStatus(s: Session, allowed: bool, size: nat): Code
    reads s`keyId, s`mounted, s`transaction
  {
    if size > INT_MAX then Overflow
    else if size > MAX_CHUNK_SIZE then MaximumKeySizeExceeded
    else if !allowed then WrongSessionType
    else if !s.stream && !s.blockOrFile then WrongSessionType
    else if s.keyId.None? then NoKeyForSession
    else if !s.mounted then NoMountedDatabase
    else if s.transaction then TransactionPending
    else Ok
  }

  /** Which refusal each of the violated conditions gives, in the order they are looked at. */
  lemma RefusalCodes(s: Session, allowed: bool, size: nat)
    ensures var code := CallStatus(s, allowed, size);
      && (code == Overflow <==> size > 0x7FFF_FFFF)
      && (code == MaximumKeySizeExceeded <==> 900000000 < size <= 0x7FFF_FFFF)
      && (code == WrongSessionType <==> size <= 900000000 && (!allowed || !(s.stream || s.blockOrFile)))
      && (code == NoKeyForSession <==> size <= 900000000 && allowed && (s.stream || s.blockOrFile) && s.keyId == None)
      && (code == NoMountedDatabase <==>
            size <= 900000000 && allowed && (s.stream || s.blockOrFile) && s.keyId != None && !s.mounted)
      && (code == TransactionPending <==>
            size <= 900000000 && allowed && (s.stream || s.blockOrFile) && s.keyId != None && s.mounted && s.transaction)
      && (code == Ok <==>
            size <= 900000000 && allowed && (s.stream || s.blockOrFile) && s.keyId != None && s.mounted && !s.transaction)
  {
  }

  /** Key bytes for one call: through the cache when the session has one, else straight from the store. */
  method KeyBytes(s: Session, keyId: KeyId, size: nat, encrypt: bool, offset: nat)
    returns (code: Code, start: nat, key: array<byte>, ghost acts: seq<Action>)
    requires s.Valid()
    modifies s`transaction, s`slots, s`owners, s`log, s.db
    ensures s.Valid() && Refines(s, old(s.View()), acts) && fresh(key) && old(s.db.faults) <= s.db.faults
    ensures code == Ok ==> Served(s.pads, keyId, size, start, key[..]) && (!encrypt ==> start == offset)
    ensures code == Ok ==>
      keyId in s.db.keys && !s.db.keys[keyId].isRevoked && (encrypt ==> s.db.keys[keyId].isEncrypt)
    ensures s.log == LogAfter(old(s.log), code, encrypt, keyId, start, size)
    ensures !encrypt ==> s.db.committed == old(s.db.committed)
    ensures old(s.db.Clean()) && s.db.faults == old(s.db.faults) ==>
      && s.db.Clean()
      && (Status(s, old(s.db.committed), keyId, size, encrypt, offset) == Ok ==>
            code == Ok || (s.resetCachedKeys && encrypt && StartsWithGiveBack(acts)))
      && (encrypt ==>
            Untroubled(s, old(s.db.committed), keyId, size, old(Grantable(s, s.db.committed, keyId, size)),
                       old(Uncached(s, s.db.committed, keyId)), code))
      && (encrypt && old(Thrifty(s, keyId, size)) ==>
            Spent(s, old(s.slots), old(s.db.committed), keyId, if code == Ok then size else 0))
    ensures !encrypt ==> SameLive(old(s.slots), s.slots)
  {
    hide Session.Valid, Status, SameLive, Spent, Untroubled, Grantable, Uncached, Thrifty, Served;
    var bytes;
    if s.CacheEnabled() {
      code, start, bytes, acts := GetCachedKeyBytes(s, keyId, size, encrypt, offset);
    } else {
      code, start, bytes, acts := KeyBytesWithoutCache(s, keyId, size, encrypt, offset);
    }
    key := new byte[|bytes|](i requires 0 <= i < |bytes| => bytes[i]);
    assert key[..] == bytes;
  }

  /** Key bytes straight from the store, for a session that has no cache. */
  method KeyBytesWithoutCache(s: Session, keyId: KeyId, size: nat, encrypt: bool, offset: nat)
    returns (code: Code, start: nat, bytes: seq<byte>, ghost acts: seq<Action>)
    requires s.Valid() && !s.CacheEnabled()
    modifies s`transaction, s`owners, s`log, s.db
    ensures s.Valid() && Refines(s, old(s.View()), acts) && old(s.db.faults) <= s.db.faults
    ensures code == Ok ==> Served(s.pads, keyId, size, start, bytes) && (!encrypt ==> start == offset)
    ensures code == Ok ==>
      keyId in s.db.keys && !s.db.keys[keyId].isRevoked && (encrypt ==> s.db.keys[keyId].isEncrypt)
    ensures s.log == LogAfter(old(s.log), code, encrypt, keyId, start, size)
    ensures !encrypt ==> s.db.committed == old(s.db.committed)
    ensures old(s.db.Clean()) && s.db.faults == old(s.db.faults) ==>
      && s.db.Clean()
      && code == Status(s, old(s.db.committed), keyId, size, encrypt, offset)
      && (encrypt ==>
            Untroubled(s, old(s.db.committed), keyId, size, old(Grantable(s, s.db.committed, keyId, size)),
                       old(Uncached(s, s.db.committed, keyId)), code))
      && (encrypt && old(Thrifty(s, keyId, size)) ==>
            Spent(s, s.slots, old(s.db.committed), keyId, if code == Ok then size else 0))
    ensures SameLive(s.slots, s.slots)
  {
    hide Session.Valid, Status, MayEncrypt, Returned, Fits, GivenBack, SameLive, Spent, EmptiedAt, Sought;
    hide Untroubled, Grantable, Uncached, GrownBy, Tidy, Edge;
    ghost var grantable, records := Grantable(s, s.db.committed, keyId, size), s.db.committed;
    ghost var thrifty := encrypt && FirstMatch(s.slots, 0, keyId, true) == None;
    AllowedSize(s, records, keyId, size, encrypt, offset);
    DirectGrantable(s, keyId, size, offset);
    SoughtEmptied(s, s.slots, records, keyId);
    code, start, bytes, acts := ReadDirect(s, keyId, size, encrypt, offset);
    DirectUntroubled(s, records, keyId, size, offset, grantable, code);
    if thrifty && (code == Ok || s.db.committed == records) {
      SpentDirect(s, s.slots, records, records, keyId, size, code == Ok);
    }
    Unspent(s, keyId);
  }

  /** Without a cache an encryption is grantable exactly when the store grants it. */
  lemma DirectGrantable(s: Session, keyId: KeyId, size: nat, offset: nat)
    requires s.Valid() && !s.CacheEnabled()
    ensures s.mounted && MayEncrypt(s.db.keys, s.db.committed, s.db.maxAttached, keyId, size) ==>
      (Status(s, s.db.committed, keyId, size, true, offset) == Ok <==> Grantable(s, s.db.committed, keyId, size))
    ensures !Uncached(s, s.db.committed, keyId)
  {
    hide Session.Valid, MayEncrypt, Status, Fits, Returned;
    AllowedSize(s, s.db.committed, keyId, size, true, offset);
    if s.mounted && MayEncrypt(s.db.keys, s.db.committed, s.db.maxAttached, keyId, size) {
      NothingReturned(s, keyId, size);
      DirectStatus(s, s.db.committed, keyId, size, 0, offset);
    }
  }

  lemma DirectUntroubled(s: Session, before: map<KeyId, Record>, keyId: KeyId, size: nat, offset: nat, grantable: bool,
                         code: Code)
    requires s.cacheKeySize == 0
    ensures (code == Status(s, before, keyId, size, true, offset)
             && (s.mounted && MayEncrypt(s.db.keys, before, s.db.maxAttached, keyId, size) ==>
                   (Status(s, before, keyId, size, true, offset) == Ok <==> grantable))
             && (code == Ok ==> GrownBy(before, s.db.committed, keyId, size, true))) ==>
            Untroubled(s, before, keyId, size, grantable, false, code)
  {
    hide Status, MayEncrypt;
    AllowedSize(s, before, keyId, size, true, offset);
  }

  /** The caller's buffer when it is large enough, else a new one. */
  method OutputBuffer(provided: array?<byte>, outSize: nat, size: nat) returns (output: array<byte>)
    requires provided != null ==> outSize <= provided.Length
    ensures size <= output.Length && (output == provided || fresh(output))
    ensures output == provided <==> provided != null && size <= outSize
  {
    if provided == null || outSize < size {
      output := new byte[size](_ => 0);
    } else {
      output := provided;
    }
  }

  /** Combines the input with key bytes into the caller's buffer, or into a new one when that is too small. */
  method Mix(input: array<byte>, size: nat, key: array<byte>, provided: array?<byte>, outSize: nat)
    returns (output: array<byte>)
    requires size <= input.Length && key.Length == size && (provided != null ==> outSize <= provided.Length)
    modifies provided
    ensures size <= output.Length && (output == provided || fresh(output))
    ensures provided != null && size <= outSize ==> output == provided
    ensures output[..size] == XorSeq(old(input[..size]), old(key[..]))
  {
    output := OutputBuffer(provided, outSize, size);
    XorBytes(output, input, key, size);
    assert old(key[..size]) == old(key[..]);
  }

  /** The first `size` bytes of the output are `text` combined with the key's pad from `offset` on. */
  ghost predicate Combined(output: array?<byte>, size: nat, text: seq<byte>, pads: map<KeyId, seq<byte>>,
                           keyId: Option<KeyId>, offset: nat)
    reads output
  {
    && keyId.Some? && keyId.value in pads && offset + size <= |pads[keyId.value]|
    && output != null && size <= output.Length && size == |text|
    && output[..size] == XorSeq(text, pads[keyId.value][offset..offset + size])
  }

  /**
   Encrypts `size` bytes of the input under the session's key. On success the output is the input combined
   with the pad range that starts at the returned global offset, and that range has been handed out once.
   Without store faults an allowed call is granted if and only if the cache or the key has bytes enough for it.
   The output buffer may be the input buffer.
   */
  method Encrypt(s: Session, offsetIn: nat, input: array<byte>, size: nat, provided: array?<byte>, outSize: nat)
    returns (code: Code, offset: nat, output: array?<byte>, newSize: nat, ghost acts: seq<Action>)
    requires s.Valid() && size <= input.Length && (provided != null ==> outSize <= provided.Length)
    modifies s`transaction, s`slots, s`owners, s`log, s.db, provided
    ensures s.Valid() && Refines(s, old(s.View()), acts) && old(s.db.faults) <= s.db.faults
    ensures output == provided || fresh(output)
    ensures code == Ok && size > 0 ==>
      && Combined(output, size, old(input[..size]), s.pads, s.keyId, offset) && newSize == size
      && (provided != null && size <= outSize ==> output == provided)
      && s.log == old(s.log) + [Grant(s.keyId.value, offset, offset + size)]
    ensures code != Ok || size == 0 ==>
      offset == offsetIn && output == provided && newSize == outSize && s.log == old(s.log)
      && (provided != null ==> provided[..] == old(provided[..]))
    ensures offsetIn == 0 && size == 0 ==> code == old(CallStatus(s, s.encrypts, size)) && acts == []
    ensures offsetIn != 0 ==> code == MustBeZero && acts == []
    ensures code == Ok ==>
      && offsetIn == 0 && s.encrypts && (s.stream || s.blockOrFile) && s.keyId.Some? && s.mounted && size <= MAX_CHUNK_SIZE
      && (size > 0 ==> s.keyId.value in s.db.keys && !s.db.keys[s.keyId.value].isRevoked && s.db.keys[s.keyId.value].isEncrypt)
    ensures old(s.db.Clean()) && s.db.faults == old(s.db.faults) ==>
      && s.db.Clean()
      && (offsetIn == 0 && old(CallStatus(s, s.encrypts, size)) == Ok && size > 0 ==>
            && Untroubled(s, old(s.db.committed), s.keyId.value, size, old(Grantable(s, s.db.committed, s.keyId.value, size)),
                          old(Uncached(s, s.db.committed, s.keyId.value)), code)
            && (old(Thrifty(s, s.keyId.value, size)) ==>
                  Spent(s, old(s.slots), old(s.db.committed), s.keyId.value, if code == Ok then size else 0)))
    ensures offsetIn == 0 && old(CallStatus(s, s.encrypts, size)) != Ok ==> code == old(CallStatus(s, s.encrypts, size))
  {
    hide Session.Valid;
    offset, output, newSize, acts := offsetIn, provided, outSize, [];
    if offsetIn != 0 {
      return MustBeZero, offset, output, newSize, acts;
    }
    code := CallStatus(s, s.encrypts, size);
    if code != Ok || size == 0 {
      return;
    }
    var keyId := s.keyId.value;
    var start, key;
    code, start, key, acts := KeyBytes(s, keyId, size, true, 0);
    if code != Ok {
      return;
    }
    output := Mix(input, size, key, provided, outSize);
    newSize, offset := size, start;
  }

  /**
   Decrypts `size` bytes of the input with the pad range at `offset`. It never changes a record or a history.
   Without store faults it succeeds whenever the store can read that range.
   */
  method Decrypt(s: Session, offset: nat, input: array<byte>, size: nat, provided: array?<byte>, outSize: nat)
    returns (code: Code, output: array?<byte>, newSize: nat, ghost acts: seq<Action>)
    requires s.Valid() && size <= input.Length && (provided != null ==> outSize <= provided.Length)
    modifies s`transaction, s`slots, s`owners, s`log, s.db, provided
    ensures s.Valid() && Refines(s, old(s.View()), acts) && old(s.db.faults) <= s.db.faults
    ensures output == provided || fresh(output)
    ensures code == Ok && size > 0 ==>
      && Combined(output, size, old(input[..size]), s.pads, s.keyId, offset) && newSize == size
      && (provided != null && size <= outSize ==> output == provided)
    ensures code != Ok || size == 0 ==>
      output == provided && newSize == outSize && (provided != null ==> provided[..] == old(provided[..]))
    ensures s.log == old(s.log) && s.db.committed == old(s.db.committed) && SameLive(old(s.slots), s.slots)
    ensures code == Ok ==>
      && s.decrypts && (s.stream || s.blockOrFile) && s.keyId.Some? && s.mounted && size <= MAX_CHUNK_SIZE
      && (size > 0 ==> s.keyId.value in s.db.keys && !s.db.keys[s.keyId.value].isRevoked)
    ensures size == 0 ==> code == old(CallStatus(s, s.decrypts, size)) && acts == []
    ensures old(CallStatus(s, s.decrypts, size)) != Ok ==> code == old(CallStatus(s, s.decrypts, size))
    ensures old(s.db.Clean()) && s.db.faults == old(s.db.faults) ==>
      && s.db.Clean()
      && (old(CallStatus(s, s.decrypts, size)) == Ok ==>
            Status(s, old(s.db.committed), s.keyId.value, size, false, offset) == Ok ==> code == Ok)
  {
    hide Session.Valid;
    output, newSize, acts := provided, outSize, [];
    code := CallStatus(s, s.decrypts, size);
    if code != Ok || size == 0 {
      return;
    }
    var start, key;
    code, start, key, acts := KeyBytes(s, s.keyId.value, size, false, offset);
    if code != Ok {
      return;
    }
    output := Mix(input, size, key, provided, outSize);
    newSize := size;
  }

  /** Mounts the keyset. */
  method MountKeySet(s: Session) returns (code: Code)
    modifies s`mounted, s.db`faults
    ensures old(s.mounted) ==> code == MountedDatabase
    ensures code == Ok ==> !old(s.mounted) && s.mounted
    ensures code != Ok ==> s.mounted == old(s.mounted)
    ensures old(s.db.faults) <= s.db.faults
    ensures !old(s.mounted) && s.db.faults == old(s.db.faults) ==> code == Ok
  {
    if s.mounted {
      return MountedDatabase;
    }
    var fault: bool := *;
    if fault {
      s.db.faults := s.db.faults + 1;
      return StoreFailure;
    }
    s.mounted := true;
    return Ok;
  }

  /**
   Unmounts the keyset. The cache is freed first, giving back what it can, and is gone even if closing fails;
   closing rolls back a transaction that was left open. With give-back and without faults, a key whose only slot ends at
   the recorded position ends with its used-bytes where the last hand-out from that slot ended.
   */
  method UnmountKeySet(s: Session) returns (code: Code, ghost acts: seq<Action>)
    requires s.Valid()
    modifies s, s.db
    ensures s.Valid() && Refines(s, old(s.View()), acts) && s.log == old(s.log) && old(s.db.faults) <= s.db.faults
    ensures !old(s.mounted) ==> code == NoMountedDatabase && acts == [] && s.slots == old(s.slots)
    ensures old(s.mounted) ==> s.slots == []
    ensures Lowered(old(s.db.committed), s.db.committed)
    ensures !old(s.mounted) || old(s.slots) == [] ==> s.db.committed == old(s.db.committed)
    ensures code == Ok ==> !s.mounted && s.keyId == None && s.db.Clean()
    ensures code != Ok ==> s.mounted == old(s.mounted) && s.keyId == old(s.keyId)
    ensures old(s.mounted) && old(s.db.Clean()) && s.db.faults == old(s.db.faults) ==>
      && code == Ok
      && (s.resetCachedKeys ==> forall k :: Tidy(old(s.slots), old(s.db.committed), k) ==>
            k in s.db.committed && s.db.committed[k].used == Edge(old(s.slots), old(s.db.committed), k))
    ensures s.resetCachedKeys && old(s.mounted) && old(s.db.Clean()) && s.db.faults == old(s.db.faults) ==>
      var slots, before := old(s.slots), old(s.db.committed);
      forall t :: 0 <= t < |slots| && slots[t].inUse && slots[t].isEncrypt && slots[t].keyId in before
                  && slots[t].base + slots[t].workOffset + slots[t].workSize == before[slots[t].keyId].used
                  && (forall j :: 0 <= j < |slots| && j != t ==>
                        !(slots[j].inUse && slots[j].isEncrypt && slots[j].keyId == slots[t].keyId)) ==>
        && slots[t].keyId in s.db.committed
        && s.db.committed[slots[t].keyId].used == slots[t].base + slots[t].workOffset
  {
    hide Session.Valid, Tidy, Edge;
    acts := [];
    if !s.mounted {
      return NoMountedDatabase, acts;
    }
    ghost var slots, records := s.slots, s.db.committed;
    acts := FreeAllCachedKeys(s);
    OnlySlots(slots, records, s.db.committed);
    code := CloseKeySet(s);
  }

  /** Closes the keyset, leaving what is persisted as it is. */
  method CloseKeySet(s: Session) returns (code: Code)
    requires s.Valid()
    modifies s`mounted, s`transaction, s`keyId, s.db
    ensures s.Valid() && s.View() == old(s.View()) && old(s.db.faults) <= s.db.faults
    ensures code == Ok ==> !s.mounted && s.keyId == None && s.db.Clean()
    ensures code != Ok ==> s.mounted == old(s.mounted) && s.keyId == old(s.keyId)
    ensures s.db.faults == old(s.db.faults) ==> code == Ok
  {
    hide Inv, Session.RecordsOk;
    var ok := s.db.Close();
    if !ok {
      return StoreFailure;
    }
    s.mounted, s.transaction, s.keyId := false, false, None;
    return Ok;
  }

  /** A key with one slot, which ends at the recorded position, is tidy, and its edge is the end of what was served. */
  lemma OnlySlots(slots: seq<CachedKey>, before: map<KeyId, Record>, after: map<KeyId, Record>)
    ensures (forall k :: Tidy(slots, before, k) ==> k in after && after[k].used == Edge(slots, before, k)) ==>
      forall t :: 0 <= t < |slots| && slots[t].inUse && slots[t].isEncrypt && slots[t].keyId in before
                  && slots[t].base + slots[t].workOffset + slots[t].workSize == before[slots[t].keyId].used
                  && (forall j :: 0 <= j < |slots| && j != t ==>
                        !(slots[j].inUse && slots[j].isEncrypt && slots[j].keyId == slots[t].keyId)) ==>
        && slots[t].keyId in after && after[slots[t].keyId].used == slots[t].base + slots[t].workOffset
  {
  }

  /** Chooses the key of the session. */
  method SetSessionKey(s: Session, keyId: Option<KeyId>) returns (code: Code)
    requires s.Valid()
    modifies s`keyId, s.db`faults
    ensures s.Valid() && s.View() == old(s.View()) && old(s.db.faults) <= s.db.faults
    ensures !s.mounted ==> code == NoMountedDatabase
    ensures code == Ok ==> s.keyId == keyId
    ensures code != Ok ==> s.keyId == old(s.keyId)
    ensures s.mounted && s.db.faults == old(s.db.faults) ==>
      (code == Ok <==> keyId == None || keyId == old(s.keyId) || (keyId.value in s.db.keys && keyId.value in s.db.working))
  {
    hide Inv, Session.RecordsOk;
    if !s.mounted {
      return NoMountedDatabase;
    }
    if keyId == None {
      s.keyId := None;
      return Ok;
    }
    if s.keyId == keyId {
      return Ok;
    }
    var found, rec := s.db.GetKeyInfo(keyId.value);
    if found.None? {
      return StoreFailure;
    }
    s.keyId := keyId;
    return Ok;
  }

  /** One public call on a session. */
  datatype Call =
    | EncryptCall(plain: seq<byte>)
    | DecryptCall(offset: nat, cipher: seq<byte>)
    | MountCall
    | UnmountCall
    | SetKeyCall(keyId: Option<KeyId>)

  /** What one call returns: for an encryption the offset and the cipher text, for a decryption the text. */
  datatype Reply = Reply(code: Code, keyId: Option<KeyId>, offset: nat, bytes: seq<byte>)

  /** Is this the reply to an encryption that was given pad bytes? */
  predicate Encrypted(call: Call, reply: Reply)
  {
    call.EncryptCall? && reply.code == Ok && call.plain != [] && reply.keyId.Some?
  }

  /** The ranges that these replies report, in order. */
  function Granted(calls: seq<Call>, replies: seq<Reply>): seq<Grant>
    requires |calls| == |replies|
  {
    if calls == [] then []
    else
      var n := |calls| - 1;
      var earlier := Granted(calls[..n], replies[..n]);
      if Encrypted(calls[n], replies[n]) then
        earlier + [Grant(replies[n].keyId.value, replies[n].offset, replies[n].offset + |calls[n].plain|)]
      else earlier
  }

  /** The text combined with the key's pad from the offset on. */
  ghost predicate Mixed(pads: map<KeyId, seq<byte>>, keyId: Option<KeyId>, offset: nat, text: seq<byte>, bytes: seq<byte>)
  {
    && keyId.Some? && keyId.value in pads && offset + |text| <= |pads[keyId.value]|
    && bytes == XorSeq(text, pads[keyId.value][offset..offset + |text|])
  }

  /** A successful encryption or decryption returned its text combined with the range it names. */
  ghost predicate Truthful(pads: map<KeyId, seq<byte>>, call: Call, reply: Reply)
  {
    && (Encrypted(call, reply) ==> Mixed(pads, reply.keyId, reply.offset, call.plain, reply.bytes))
    && (call.DecryptCall? && call.cipher != [] && reply.code == Ok ==>
          reply.offset == call.offset && Mixed(pads, reply.keyId, call.offset, call.cipher, reply.bytes))
  }

  /** Performs one call with fresh buffers. */
  method Perform(s: Session, call: Call) returns (reply: Reply, ghost acts: seq<Action>)
    requires s.Valid()
    modifies s, s.db
    ensures Truthful(s.pads, call, reply)
    ensures s.log == old(s.log) + if Encrypted(call, reply)
                                  then [Grant(reply.keyId.value, reply.offset, reply.offset + |call.plain|)] else []
    ensures old(s.db.faults) <= s.db.faults
    ensures reply.code == Ok ==>
      && (call.EncryptCall? ==> s.encrypts) && (call.DecryptCall? ==> s.decrypts)
      && (call.EncryptCall? || call.DecryptCall? ==> (s.stream || s.blockOrFile) && reply.keyId.Some? && old(s.mounted))
    ensures call.EncryptCall? ==>
      && s.mounted == old(s.mounted) && s.keyId == old(s.keyId) == reply.keyId
      && (old(CallStatus(s, s.encrypts, |call.plain|)) != Ok || call.plain == [] ==>
            reply.code == old(CallStatus(s, s.encrypts, |call.plain|)))
    ensures call.EncryptCall? && old(s.db.Clean()) && s.db.faults == old(s.db.faults) && call.plain != []
            && old(CallStatus(s, s.encrypts, |call.plain|)) == Ok ==>
      && s.db.Clean()
      && Untroubled(s, old(s.db.committed), old(s.keyId).value, |call.plain|,
                    old(Grantable(s, s.db.committed, s.keyId.value, |call.plain|)),
                    old(Uncached(s, s.db.committed, s.keyId.value)), reply.code)
      && (old(Thrifty(s, s.keyId.value, |call.plain|)) ==>
            Spent(s, old(s.slots), old(s.db.committed), old(s.keyId).value, if reply.code == Ok then |call.plain| else 0))
    ensures call.DecryptCall? ==>
      && s.mounted == old(s.mounted) && s.keyId == old(s.keyId) == reply.keyId && s.db.committed == old(s.db.committed)
      && SameLive(old(s.slots), s.slots)
      && (old(CallStatus(s, s.decrypts, |call.cipher|)) != Ok || call.cipher == [] ==>
            reply.code == old(CallStatus(s, s.decrypts, |call.cipher|)))
      && (old(s.db.Clean()) && s.db.faults == old(s.db.faults) ==>
            && s.db.Clean()
            && (old(CallStatus(s, s.decrypts, |call.cipher|)) == Ok ==>
                  Status(s, old(s.db.committed), old(s.keyId).value, |call.cipher|, false, call.offset) == Ok ==>
                    reply.code == Ok))
    ensures call.MountCall? ==>
      && s.keyId == old(s.keyId) && s.db.committed == old(s.db.committed) && s.db.Clean() == old(s.db.Clean())
      && s.slots == old(s.slots)
      && (old(s.mounted) ==> reply.code == MountedDatabase) && (reply.code == Ok ==> s.mounted)
      && (s.db.faults == old(s.db.faults) && !old(s.mounted) ==> reply.code == Ok)
    ensures call.UnmountCall? ==>
      && (!old(s.mounted) ==> reply.code == NoMountedDatabase && s.slots == old(s.slots)) && (old(s.mounted) ==> s.slots == [])
      && (!old(s.mounted) || old(s.slots) == [] ==> s.db.committed == old(s.db.committed))
      && Lowered(old(s.db.committed), s.db.committed)
      && (reply.code == Ok ==> !s.mounted && s.keyId == None && s.db.Clean())
      && (old(s.mounted) && old(s.db.Clean()) && s.db.faults == old(s.db.faults) ==>
            && reply.code == Ok
            && (s.resetCachedKeys ==> forall k :: Tidy(old(s.slots), old(s.db.committed), k) ==>
                  k in s.db.committed && s.db.committed[k].used == Edge(old(s.slots), old(s.db.committed), k)))
    ensures call.SetKeyCall? ==>
      && s.mounted == old(s.mounted) && s.db.committed == old(s.db.committed) && s.db.Clean() == old(s.db.Clean())
      && s.slots == old(s.slots) && (!old(s.mounted) ==> reply.code == NoMountedDatabase)
      && (reply.code == Ok ==> s.keyId == call.keyId) && (reply.code != Ok ==> s.keyId == old(s.keyId))
      && (s.db.faults == old(s.db.faults) && old(s.mounted) ==>
            (reply.code == Ok <==> call.keyId == None || call.keyId == old(s.keyId)
                                   || (call.keyId.value in s.db.keys && call.keyId.value in old(s.db.working))))
    ensures s.Valid() && Refines(s, old(s.View()), acts)
  {
    hide Session.Valid, Untroubled, Grantable, Uncached, Lowered, Mixed, Status, CallStatus, Thrifty, Spent, SameLive;
    hide Tidy, Edge;
    acts := [];
    match call {
      case EncryptCall(plain) =>
        reply, acts := PerformEncrypt(s, plain);
      case DecryptCall(offset, cipher) =>
        reply, acts := PerformDecrypt(s, offset, cipher);
      case MountCall =>
        var code := Mount(s);
        reply := Reply(code, None, 0, []);
      case UnmountCall =>
        var code;
        code, acts := UnmountKeySet(s);
        reply := Reply(code, None, 0, []);
      case SetKeyCall(keyId) =>
        var code := SetSessionKey(s, keyId);
        reply := Reply(code, None, 0, []);
    }
  }

  method PerformEncrypt(s: Session, plain: seq<byte>) returns (reply: Reply, ghost acts: seq<Action>)
    requires s.Valid()
    modifies s, s.db
    ensures s.Valid() && Refines(s, old(s.View()), acts)
    ensures reply.keyId == old(s.keyId)
    ensures reply.code == Ok ==> s.encrypts && (s.stream || s.blockOrFile) && reply.keyId.Some? && s.mounted
    ensures reply.code == Ok && plain != [] ==>
      && reply.keyId.Some? && Mixed(s.pads, reply.keyId, reply.offset, plain, reply.bytes)
      && s.log == old(s.log) + [Grant(reply.keyId.value, reply.offset, reply.offset + |plain|)]
    ensures reply.code != Ok || plain == [] ==> s.log == old(s.log)
    ensures s.mounted == old(s.mounted) && s.keyId == old(s.keyId) && old(s.db.faults) <= s.db.faults
    ensures old(CallStatus(s, s.encrypts, |plain|)) != Ok || plain == [] ==>
      reply.code == old(CallStatus(s, s.encrypts, |plain|))
    ensures old(s.db.Clean()) && s.db.faults == old(s.db.faults) && plain != []
            && old(CallStatus(s, s.encrypts, |plain|)) == Ok ==>
      && s.db.Clean()
      && Untroubled(s, old(s.db.committed), s.keyId.value, |plain|,
                    old(Grantable(s, s.db.committed, s.keyId.value, |plain|)),
                    old(Uncached(s, s.db.committed, s.keyId.value)), reply.code)
      && (old(Thrifty(s, s.keyId.value, |plain|)) ==>
            Spent(s, old(s.slots), old(s.db.committed), s.keyId.value, if reply.code == Ok then |plain| else 0))
  {
    hide Session.Valid, Untroubled, Grantable, Uncached, Thrifty, Spent;
    var input := new byte[|plain|](i requires 0 <= i < |plain| => plain[i]);
    assert input[..|plain|] == plain;
    var code, offset, output, size;
    code, offset, output, size, acts := Encrypt(s, 0, input, |plain|, null, 0);
    var granted := code == Ok && plain != [];
    reply := Reply(code, s.keyId, offset, if granted then output[..size] else []);
  }

  method PerformDecrypt(s: Session, offset: nat, cipher: seq<byte>) returns (reply: Reply, ghost acts: seq<Action>)
    requires s.Valid()
    modifies s, s.db
    ensures s.log == old(s.log) && s.db.committed == old(s.db.committed) && SameLive(old(s.slots), s.slots)
    ensures s.mounted == old(s.mounted) && s.keyId == old(s.keyId) == reply.keyId && reply.offset == offset
    ensures old(s.db.faults) <= s.db.faults
    ensures reply.code == Ok ==> s.decrypts && (s.stream || s.blockOrFile) && reply.keyId.Some? && s.mounted
    ensures reply.code == Ok && cipher != [] ==> Mixed(s.pads, reply.keyId, offset, cipher, reply.bytes)
    ensures old(CallStatus(s, s.decrypts, |cipher|)) != Ok || cipher == [] ==>
      reply.code == old(CallStatus(s, s.decrypts, |cipher|))
    ensures old(s.db.Clean()) && s.db.faults == old(s.db.faults) ==>
      && s.db.Clean()
      && (old(CallStatus(s, s.decrypts, |cipher|)) == Ok ==>
            Status(s, old(s.db.committed), old(s.keyId).value, |cipher|, false, offset) == Ok ==> reply.code == Ok)
    ensures s.Valid() && Refines(s, old(s.View()), acts)
  {
    hide Session.Valid, Status, SameLive;
    var input := new byte[|cipher|](i requires 0 <= i < |cipher| => cipher[i]);
    assert input[..|cipher|] == cipher;
    var code, output, size;
    code, output, size, acts := Decrypt(s, offset, input, |cipher|, null, 0);
    var granted := code == Ok && cipher != [];
    reply := Reply(code, s.keyId, offset, if granted then output[..size] else []);
  }

  /** Mounting leaves the records, the cache and the history as they are. */
  method Mount(s: Session) returns (code: Code)
    requires s.Valid()
    modifies s`mounted, s.db`faults
    ensures s.Valid() && s.View() == old(s.View()) && old(s.db.faults) <= s.db.faults
    ensures old(s.mounted) ==> code == MountedDatabase
    ensures code == Ok ==> !old(s.mounted) && s.mounted
    ensures code != Ok ==> s.mounted == old(s.mounted)
    ensures !old(s.mounted) && s.db.faults == old(s.db.faults) ==> code == Ok
  {
    code := MountKeySet(s);
  }

  /** What these calls may cost their key at most. */
  function Charges(entry: nat, calls: seq<Call>): nat
  {
    if calls == [] then 0
    else (if calls[0].EncryptCall? then Charge(entry, |calls[0].plain|) else 0) + Charges(entry, calls[1..])
  }

  /** What a run of calls may rely on: its key, how long texts may be, and what the session may do with the key. */
  datatype Terms = Terms(keyId: KeyId, total: nat, most: nat, encrypts: bool, decrypts: bool)

  /**
   From this state on the calls mount and unmount the keyset in turn, choose no key but this one, encrypt texts of up to
   `most` bytes, and decrypt inside the key's pad.
   */
  predicate Speaks(terms: Terms, mounted: bool, chosen: Option<KeyId>, calls: seq<Call>)
    decreases |calls|
  {
    if calls == [] then true
    else
      match calls[0]
      case MountCall => !mounted && Speaks(terms, true, chosen, calls[1..])
      case UnmountCall => mounted && Speaks(terms, false, None, calls[1..])
      case SetKeyCall(k) => mounted && (k == None || k == Some(terms.keyId)) && Speaks(terms, true, k, calls[1..])
      case EncryptCall(plain) =>
        && terms.encrypts && mounted && chosen == Some(terms.keyId) && 0 < |plain| <= terms.most
        && Speaks(terms, mounted, chosen, calls[1..])
      case DecryptCall(offset, cipher) =>
        && terms.decrypts && mounted && chosen == Some(terms.keyId) && 0 < |cipher| <= terms.most
        && offset + |cipher| <= terms.total && Speaks(terms, mounted, chosen, calls[1..])
  }

  /** The session may make all of these calls: they keep to what it and the key are for. */
  ghost predicate MayPerform(s: Session, keyId: KeyId, most: nat, calls: seq<Call>)
    reads s`mounted, s`keyId, s.db
  {
    && s.db.Clean() && (s.stream || s.blockOrFile) && most <= MAX_CHUNK_SIZE
    && CanRead(s.db.keys, s.db.maxAttached, keyId, most) && keyId in s.db.committed
    && Speaks(TermsOf(s.db.keys[keyId], keyId, most, s.encrypts, s.decrypts), s.mounted, s.keyId, calls)
  }

  /** The session may make all of these calls, and the key has room for what they may cost below `limit`. */
  ghost predicate OnTrack(s: Session, keyId: KeyId, most: nat, limit: nat, calls: seq<Call>)
    reads s`mounted, s`keyId, s.db
  {
    && MayPerform(s, keyId, most, calls)
    && s.db.committed[keyId].used + Charges(s.cacheKeySize, calls) <= limit <= s.db.keys[keyId].total
  }

  /** How many bytes of pad this call asks for. */
  function Length(call: Call): nat
  {
    if call.EncryptCall? then |call.plain| else 0
  }

  function Lengths(calls: seq<Call>): nat
  {
    if calls == [] then 0 else Length(calls[0]) + Lengths(calls[1..])
  }

  /** The last call has unmounted the keyset. */
  predicate EndsUnmounted(calls: seq<Call>, replies: seq<Reply>)
    requires |calls| == |replies|
  {
    calls != [] && calls[|calls| - 1] == UnmountCall && replies[|calls| - 1].code == Ok
  }

  /** How many bytes have been handed out. */
  function Taken(log: seq<Grant>): int
  {
    if log == [] then 0 else Taken(log[..|log| - 1]) + log[|log| - 1].hi - log[|log| - 1].lo
  }

  /** There is no cache, or unused bytes are given back and no text is longer than a cache entry. */
  predicate Frugal(s: Session, calls: seq<Call>)
  {
    s.cacheKeySize == 0 || (s.resetCachedKeys && forall i :: 0 <= i < |calls| ==> Length(calls[i]) <= s.cacheKeySize)
  }

  /** The session may make all of these calls, and none of them can lose a byte of the key. */
  ghost predicate Lossless(s: Session, keyId: KeyId, most: nat, calls: seq<Call>)
    reads s`mounted, s`keyId, s`slots, s.db
  {
    MayPerform(s, keyId, most, calls) && Frugal(s, calls) && Tidy(s.slots, s.db.committed, keyId)
  }

  /** The first byte of the key that has not been handed out, and how far the key goes. */
  ghost function Front(s: Session, keyId: KeyId): nat
    reads s`slots, s.db`committed
  {
    Edge(s.slots, s.db.committed, keyId)
  }

  function TermsOf(info: KeyInfo, keyId: KeyId, most: nat, encrypts: bool, decrypts: bool): Terms
  {
    Terms(keyId, info.total, most, encrypts && info.isEncrypt, decrypts)
  }

  /** Performs the next call; on track and without faults it succeeds, and the session stays on track. */
  method PerformNext(s: Session, calls: seq<Call>, ghost keyId: KeyId, ghost most: nat, ghost limit: nat)
    returns (reply: Reply, ghost acts: seq<Action>)
    requires s.Valid() && calls != []
    modifies s, s.db
    ensures s.Valid() && Refines(s, old(s.View()), acts) && old(s.db.faults) <= s.db.faults
    ensures Truthful(s.pads, calls[0], reply)
    ensures calls[0].UnmountCall? && reply.code == Ok ==> s.slots == []
    ensures !s.encrypts ==> s.log == old(s.log)
    ensures s.log == old(s.log) + if Encrypted(calls[0], reply)
                                  then [Grant(reply.keyId.value, reply.offset, reply.offset + |calls[0].plain|)] else []
    ensures old(MayPerform(s, keyId, most, calls)) && s.db.faults == old(s.db.faults) ==>
      MayPerform(s, keyId, most, calls[1..])
    ensures old(OnTrack(s, keyId, most, limit, calls)) && s.db.faults == old(s.db.faults) ==>
      reply.code == Ok && OnTrack(s, keyId, most, limit, calls[1..])
    ensures old(Lossless(s, keyId, most, calls)) && s.db.faults == old(s.db.faults) ==>
      && Lossless(s, keyId, most, calls[1..])
      && (reply.code == Ok <==> old(Front(s, keyId)) + Length(calls[0]) <= s.db.keys[keyId].total)
      && Front(s, keyId) == old(Front(s, keyId)) + (if Encrypted(calls[0], reply) then Length(calls[0]) else 0)
      && (reply.code == Ok && Length(calls[0]) > 0 ==> Encrypted(calls[0], reply))
  {
    hide Session.Valid, Truthful, Status, Tidy, Edge, SameLive;
    ghost var slots, records := s.slots, s.db.committed;
    if MayPerform(s, keyId, most, calls) {
      NextAllowed(s, calls, keyId, most, limit);
    }
    KnownKeys(s);
    reply, acts := Perform(s, calls[0]);
    NextFront(s, slots, records, keyId);
    KnownKeys(s);
  }

  lemma KnownKeys(s: Session)
    requires s.Valid()
    ensures s.db.committed.Keys == s.db.keys.Keys
  {
  }

  /** Calls that do not encrypt leave the edge where it is. */
  lemma NextFront(s: Session, slots: seq<CachedKey>, records: map<KeyId, Record>, keyId: KeyId)
    ensures SameLive(slots, s.slots) && s.db.committed == records && Tidy(slots, records, keyId) ==>
      Tidy(s.slots, s.db.committed, keyId) && Front(s, keyId) == Edge(slots, records, keyId)
    ensures s.slots == [] && Tidy(slots, records, keyId) && keyId in s.db.committed
            && s.db.committed[keyId].used == Edge(slots, records, keyId) ==>
      Tidy(s.slots, s.db.committed, keyId) && Front(s, keyId) == Edge(slots, records, keyId)
    ensures slots == [] && Tidy(slots, records, keyId) ==> Edge(slots, records, keyId) == records[keyId].used
  {
    if SameLive(slots, s.slots) && Tidy(slots, records, keyId) {
      SameLiveTidy(slots, s.slots, records, keyId);
    }
  }

  lemma PadLength(s: Session, keyId: KeyId)
    requires s.Valid() && keyId in s.db.committed
    ensures keyId in s.pads && |s.pads[keyId]| == s.db.keys[keyId].total
  {
    assert KeyOk(s.db.keys[keyId], s.pads[keyId], s.db.committed[keyId]);
  }

  lemma NextAllowed(s: Session, calls: seq<Call>, keyId: KeyId, most: nat, limit: nat)
    requires s.Valid() && calls != [] && MayPerform(s, keyId, most, calls)
    ensures keyId in s.db.working && keyId in s.db.keys
    ensures calls[0].DecryptCall? ==>
      && CallStatus(s, s.decrypts, |calls[0].cipher|) == Ok
      && Status(s, s.db.committed, keyId, |calls[0].cipher|, false, calls[0].offset) == Ok
    ensures calls[0].EncryptCall? ==>
      && CallStatus(s, s.encrypts, |calls[0].plain|) == Ok && calls[0].plain != []
      && MayEncrypt(s.db.keys, s.db.committed, s.db.maxAttached, keyId, |calls[0].plain|)
    ensures calls[0].EncryptCall? && OnTrack(s, keyId, most, limit, calls) ==>
      Grantable(s, s.db.committed, keyId, |calls[0].plain|)
    ensures Lossless(s, keyId, most, calls) ==> Front(s, keyId) <= s.db.keys[keyId].total
    ensures calls[0].EncryptCall? && Lossless(s, keyId, most, calls) ==>
      && Thrifty(s, keyId, |calls[0].plain|)
      && (Grantable(s, s.db.committed, keyId, |calls[0].plain|) <==>
            Front(s, keyId) + |calls[0].plain| <= s.db.keys[keyId].total)
    ensures s.cacheKeySize == 0 ==> s.slots == []
  {
    TopIsUsed(s, keyId);
    if calls[0].EncryptCall? {
      RoomGrants(s, s.db.committed, keyId, |calls[0].plain|);
      if Lossless(s, keyId, most, calls) {
        TidyGrants(s, keyId, |calls[0].plain|);
      }
    } else if calls[0].DecryptCall? {
      PadLength(s, keyId);
      ReadableStatus(s, |calls[0].cipher|, calls[0].offset);
    }
  }

  /**
   Single use in the engine itself: whatever calls a session makes, in whatever order and with whatever store
   failures, its history is exactly the ranges its successful encryptions report; those of a key are pairwise
   disjoint and lie inside the pad, below the persisted position. While the key has room for what the calls may
   cost, and without faults, none of them fails. When no text is longer than a cache entry and unused bytes are given
   back, or there is no cache, all of them succeed if and only if the key has room for the lengths of their texts, and once
   the cache is gone the key has lost exactly the bytes that were handed out.
   */
  method PerformAll(s: Session, calls: seq<Call>, ghost keyId: KeyId, ghost most: nat, ghost limit: nat)
    returns (replies: seq<Reply>, ghost acts: seq<Action>)
    requires s.Valid() && Initial(s.TheVault(), s.View())
    modifies s, s.db
    ensures s.Valid() && Refines(s, old(s.View()), acts) && old(s.db.faults) <= s.db.faults
    ensures |replies| == |calls| && s.log == Granted(calls, replies)
    ensures AllMixed(s.pads, calls, replies) && (EndsUnmounted(calls, replies) ==> s.slots == [])
    ensures forall p, q :: 0 <= p < q < |s.log| && s.log[p].keyId == s.log[q].keyId ==>
      s.log[p].hi <= s.log[q].lo || s.log[q].hi <= s.log[p].lo
    ensures forall n :: 0 <= n < |s.log| ==>
      && s.log[n].keyId in s.db.committed && s.log[n].keyId in s.pads && s.log[n].keyId in s.db.keys
      && s.log[n].lo < s.log[n].hi <= Top(s.db.keys[s.log[n].keyId], s.db.committed[s.log[n].keyId])
                                   <= |s.pads[s.log[n].keyId]|
      && !s.db.keys[s.log[n].keyId].isRevoked && s.db.keys[s.log[n].keyId].isEncrypt
    ensures !s.encrypts ==> s.log == []
    ensures old(OnTrack(s, keyId, most, limit, calls)) && s.db.faults == old(s.db.faults) ==>
      AllOk(replies) && OnTrack(s, keyId, most, limit, [])
    ensures old(MayPerform(s, keyId, most, calls)) && Frugal(s, calls) && s.db.faults == old(s.db.faults) ==>
      && (AllOk(replies) <==> old(s.db.committed)[keyId].used + Lengths(calls) <= s.db.keys[keyId].total)
      && (AllOk(replies) ==> Taken(s.log) == Lengths(calls))
      && (s.slots == [] ==>
            keyId in s.db.committed && s.db.committed[keyId].used == old(s.db.committed)[keyId].used + Taken(s.log))
  {
    hide Session.Valid, AllMixed, Granted, Run, After, OnTrack, MayPerform, Taken, Lossless, Front, AllOk, Lengths, Frugal;
    ghost var v, start := s.TheVault(), s.View();
    FreshFront(s, keyId, most, calls);
    replies, acts := PerformEach(s, calls, keyId, most, limit);
    EmptyFront(s, keyId, most);
    SingleUse(v, start, acts);
    assert After(v, start, acts) == s.View();
  }

  /** In a fresh session nothing of a key is set aside. */
  lemma FreshFront(s: Session, keyId: KeyId, most: nat, calls: seq<Call>)
    requires Initial(s.TheVault(), s.View())
    ensures MayPerform(s, keyId, most, calls) ==>
      keyId in s.db.committed && keyId in s.db.keys && Front(s, keyId) == s.db.committed[keyId].used
    ensures MayPerform(s, keyId, most, calls) && Frugal(s, calls) ==> Lossless(s, keyId, most, calls)
  {
  }

  lemma EmptyFront(s: Session, keyId: KeyId, most: nat)
    ensures Lossless(s, keyId, most, []) && s.slots == [] ==>
      keyId in s.db.committed && s.db.committed[keyId].used == Front(s, keyId)
  {
  }

  /** Every reply is truthful. */
  ghost predicate AllMixed(pads: map<KeyId, seq<byte>>, calls: seq<Call>, replies: seq<Reply>)
  {
    |replies| == |calls| && forall i :: 0 <= i < |calls| ==> Truthful(pads, calls[i], replies[i])
  }

  /**
   The round trip inside a run and across runs: a decryption of what any encryption returned, at the offset it returned,
   under the same key and pad, gives its text back.
   */
  lemma RunRoundTrip(pads: map<KeyId, seq<byte>>, calls: seq<Call>, replies: seq<Reply>, i: nat,
                     calls': seq<Call>, replies': seq<Reply>, j: nat)
    requires AllMixed(pads, calls, replies) && i < |calls| && Encrypted(calls[i], replies[i])
    requires AllMixed(pads, calls', replies') && j < |calls'| && calls'[j] == DecryptCall(replies[i].offset, replies[i].bytes)
    requires replies'[j].code == Ok && replies'[j].keyId == replies[i].keyId
    ensures replies'[j].bytes == calls[i].plain
  {
    assert Truthful(pads, calls[i], replies[i]) && Truthful(pads, calls'[j], replies'[j]);
    var pad := pads[replies[i].keyId.value];
    XorSeqCancels(calls[i].plain, pad[replies[i].offset..replies[i].offset + |calls[i].plain|]);
  }

  predicate AllOk(replies: seq<Reply>)
  {
    forall i :: 0 <= i < |replies| ==> replies[i].code == Ok
  }

  method PerformEach(s: Session, calls: seq<Call>, ghost keyId: KeyId, ghost most: nat, ghost limit: nat)
    returns (replies: seq<Reply>, ghost acts: seq<Action>)
    requires s.Valid() && s.log == []
    modifies s, s.db
    ensures s.Valid() && Refines(s, old(s.View()), acts) && old(s.db.faults) <= s.db.faults
    ensures |replies| == |calls| && s.log == Granted(calls, replies) && (!s.encrypts ==> s.log == [])
    ensures AllMixed(s.pads, calls, replies) && (EndsUnmounted(calls, replies) ==> s.slots == [])
    ensures old(OnTrack(s, keyId, most, limit, calls)) && s.db.faults == old(s.db.faults) ==>
      AllOk(replies) && OnTrack(s, keyId, most, limit, [])
    ensures old(Lossless(s, keyId, most, calls)) && s.db.faults == old(s.db.faults) ==>
      && Lossless(s, keyId, most, []) && Front(s, keyId) == old(Front(s, keyId)) + Taken(s.log)
      && (AllOk(replies) <==> old(Front(s, keyId)) + Lengths(calls) <= s.db.keys[keyId].total)
      && (AllOk(replies) ==> Taken(s.log) == Lengths(calls))
  {
    hide Session.Valid, Truthful, Run, After, OnTrack, Lossless, Front, Lengths, Taken, Granted, AllOk, Length, Encrypted;
    ghost var v, start, onTrack := s.TheVault(), s.View(), OnTrack(s, keyId, most, limit, calls);
    ghost var lossless, front := Lossless(s, keyId, most, calls), Front(s, keyId);
    ghost var goal, total := front + Lengths(calls), if keyId in s.db.keys then s.db.keys[keyId].total else 0;
    replies, acts := [], [];
    NoRun(v, start);
    NoneTaken(calls, replies, s.log);
    for i := 0 to |calls|
      invariant s.Valid() && s.TheVault() == v && Refines(s, start, acts) && old(s.db.faults) <= s.db.faults
      invariant |replies| == i && s.log == Granted(calls[..i], replies) && AllMixed(s.pads, calls[..i], replies)
      invariant !s.encrypts ==> s.log == []
      invariant i > 0 && calls[i - 1].UnmountCall? && replies[i - 1].code == Ok ==> s.slots == []
      invariant onTrack && s.db.faults == old(s.db.faults) ==>
        AllOk(replies) && OnTrack(s, keyId, most, limit, calls[i..])
      invariant lossless && s.db.faults == old(s.db.faults) ==>
        && Lossless(s, keyId, most, calls[i..]) && Front(s, keyId) == front + Taken(s.log)
        && (if AllOk(replies) then Front(s, keyId) + Lengths(calls[i..]) == goal else total < goal)
    {
      ghost var more, log := [], s.log;
      var reply;
      LengthsSplit(calls, i);
      if lossless && s.db.faults == old(s.db.faults) {
        FrontInside(s, keyId, most, calls[i..]);
      }
      reply, more := PerformNext(s, calls[i..], keyId, most, limit);
      RunConcat(v, start, acts, more);
      acts := acts + more;
      GrantedNext(calls, i, replies, reply);
      TakenNext(log, s.log, calls[i], reply);
      OkNext(replies, reply);
      assert calls[i..][1..] == calls[i + 1..];
      replies := replies + [reply];
    }
    assert calls[..|calls|] == calls;
    if lossless && s.db.faults == old(s.db.faults) {
      FrontInside(s, keyId, most, calls[|calls|..]);
    }
  }

  lemma NoneTaken(calls: seq<Call>, replies: seq<Reply>, log: seq<Grant>)
    requires replies == [] && log == []
    ensures log == Granted(calls[..0], replies) && Taken(log) == 0 && Lengths([]) == 0 && calls[0..] == calls && AllOk(replies)
  {
  }

  lemma LengthsSplit(calls: seq<Call>, i: nat)
    requires i < |calls|
    ensures Lengths(calls[i..]) == Length(calls[i]) + Lengths(calls[i + 1..])
  {
    assert calls[i..][1..] == calls[i + 1..];
  }

  lemma GrantedNext(calls: seq<Call>, i: nat, replies: seq<Reply>, reply: Reply)
    requires |replies| == i < |calls|
    ensures Granted(calls[..i + 1], replies + [reply]) == Granted(calls[..i], replies) +
              if Encrypted(calls[i], reply)
              then [Grant(reply.keyId.value, reply.offset, reply.offset + |calls[i].plain|)] else []
    ensures calls[..i + 1][..i] == calls[..i] && (replies + [reply])[..i] == replies
  {
    assert calls[..i + 1][..i] == calls[..i] && (replies + [reply])[..i] == replies;
  }

  lemma TakenNext(log: seq<Grant>, log': seq<Grant>, call: Call, reply: Reply)
    requires log' == log + if Encrypted(call, reply)
                           then [Grant(reply.keyId.value, reply.offset, reply.offset + |call.plain|)] else []
    ensures Taken(log') == Taken(log) + if Encrypted(call, reply) then Length(call) else 0
  {
    if Encrypted(call, reply) {
      assert log'[..|log'| - 1] == log;
    } else {
      assert log' == log;
    }
  }

  lemma OkNext(replies: seq<Reply>, reply: Reply)
    ensures AllOk(replies + [reply]) <==> AllOk(replies) && reply.code == Ok
  {
    forall i | 0 <= i < |replies|
      ensures (replies + [reply])[i] == replies[i]
    {
    }
    assert (replies + [reply])[|replies|] == reply;
  }

  lemma FrontInside(s: Session, keyId: KeyId, most: nat, calls: seq<Call>)
    requires s.Valid() && Lossless(s, keyId, most, calls)
    ensures keyId in s.db.keys && Front(s, keyId) <= s.db.keys[keyId].total
  {
    TopIsUsed(s, keyId);
  }

  lemma NoRun(v: Vault, m: Machine)
    ensures Run(v, m, []) && After(v, m, []) == m
  {
  }

  /** Decryption inside the pad of such a key is never refused for lack of faults. */
  lemma ReadableStatus(s: Session, size: nat, offset: nat)
    requires s.Valid() && s.mounted && s.keyId.Some? && s.keyId.value in s.pads
    requires 0 < size <= INT_MAX && offset + size <= |s.pads[s.keyId.value]|
    requires CanRead(s.db.keys, s.db.maxAttached, s.keyId.value, size)
    ensures Status(s, s.db.committed, s.keyId.value, size, false, offset) == Ok
  {
    var info := s.db.keys[s.keyId.value];
    if info.chunkSize != 0 {
      FewChunks(info.chunkSize, Locate(info.chunkSize, offset), size, s.db.maxAttached);
    }
  }

  /** The session has chosen a key with this pad. */
  ghost predicate HasPad(s: Session, pad: seq<byte>)
    reads s`keyId
  {
    s.keyId.Some? && s.keyId.value in s.pads && s.pads[s.keyId.value] == pad
  }

  /** Both sessions have chosen a key with the same pad. */
  ghost predicate SharePad(a: Session, b: Session)
    reads a`keyId, b`keyId
  {
    a.keyId.Some? && a.keyId.value in a.pads && HasPad(b, a.pads[a.keyId.value])
  }

  /**
   Encrypt, then decrypt: with the same pad on both sides, whatever their chunk layouts and caches, decrypting
   at the returned offset gives the plaintext back. Without faults the sender is granted a range while its key has
   room, and the receiver is granted any range it may read at all.
   */
  method RoundTrip(sender: Session, receiver: Session, plain: array<byte>, size: nat)
    returns (sent: Code, received: Code, result: array?<byte>)
    requires sender.Valid() && receiver.Valid() && sender != receiver && sender.db != receiver.db
    requires 0 < size <= plain.Length
    modifies sender, sender.db, receiver, receiver.db
    ensures old(SharePad(sender, receiver)) && sent == Ok && received == Ok ==>
      result != null && size <= result.Length && result[..size] == old(plain[..size])
    ensures old(SharePad(sender, receiver)) && sent == Ok && old(receiver.db.Clean())
            && receiver.db.faults == old(receiver.db.faults)
            && old(CallStatus(receiver, receiver.decrypts, size)) == Ok
            && CanRead(receiver.db.keys, receiver.db.maxAttached, old(receiver.keyId).value, size) ==>
            received == Ok
    ensures old(sender.db.Clean()) && sender.db.faults == old(sender.db.faults)
            && old(CallStatus(sender, sender.encrypts, size)) == Ok
            && Room(sender.db.keys, old(sender.db.committed), sender.db.maxAttached, old(sender.keyId).value, size) ==>
            sent == Ok
  {
    hide Session.Valid, Status, MayEncrypt, Grantable, Uncached, GrownBy, CanRead, Thrifty, Spent, SameLive;
    result, received := null, StoreFailure;
    ghost var text := plain[..size];
    if sender.keyId.Some? {
      RoomGrants(sender, sender.db.committed, sender.keyId.value, size);
    }
    var offset, cipher, n;
    ghost var acts;
    sent, offset, cipher, n, acts := Encrypt(sender, 0, plain, size, null, 0);
    if sent == Ok {
      received, result := GetBack(receiver, cipher, size, offset, text, sender.pads[sender.keyId.value]);
    }
  }

  /** Decrypts at the offset what was combined with the pad there. */
  method GetBack(receiver: Session, cipher: array<byte>, size: nat, offset: nat, ghost text: seq<byte>, ghost pad: seq<byte>)
    returns (received: Code, result: array?<byte>)
    requires receiver.Valid() && 0 < size <= cipher.Length && offset + size <= |pad| && |text| == size
    requires cipher[..size] == XorSeq(text, pad[offset..offset + size])
    modifies receiver, receiver.db
    ensures old(HasPad(receiver, pad)) && received == Ok ==>
      result != null && size <= result.Length && result[..size] == text
    ensures old(HasPad(receiver, pad)) && old(receiver.db.Clean()) && receiver.db.faults == old(receiver.db.faults)
            && old(CallStatus(receiver, receiver.decrypts, size)) == Ok
            && CanRead(receiver.db.keys, receiver.db.maxAttached, old(receiver.keyId).value, size) ==>
            received == Ok
  {
    hide Session.Valid, Status, CanRead, SameLive;
    if HasPad(receiver, pad) && CallStatus(receiver, receiver.decrypts, size) == Ok
       && CanRead(receiver.db.keys, receiver.db.maxAttached, receiver.keyId.value, size) {
      ReadableStatus(receiver, size, offset);
    }
    var n;
    ghost var acts;
    received, result, n, acts := Decrypt(receiver, offset, cipher, size, null, 0);
    XorSeqCancels(text, pad[offset..offset + size]);
  }

  /** The same round trip when one session is used in both directions. */
  method RoundTripAlone(s: Session, plain: array<byte>, size: nat)
    returns (sent: Code, received: Code, result: array?<byte>)
    requires s.Valid() && 0 < size <= plain.Length && s.keyId.Some? && s.keyId.value in s.pads
    modifies s, s.db
    ensures s.Valid()
    ensures sent == Ok && received == Ok ==>
      result != null && size <= result.Length && result[..size] == old(plain[..size])
    ensures old(s.db.Clean()) && s.db.faults == old(s.db.faults) && old(CallStatus(s, s.encrypts, size)) == Ok
            && Room(s.db.keys, old(s.db.committed), s.db.maxAttached, old(s.keyId).value, size) ==>
            sent == Ok && (s.decrypts ==> received == Ok)
  {
    hide Session.Valid, Status, Grantable, Uncached, GrownBy, Thrifty, Spent, SameLive;
    result, received := null, StoreFailure;
    ghost var text, pad := plain[..size], s.pads[s.keyId.value];
    RoomGrants(s, s.db.committed, s.keyId.value, size);
    var offset, cipher, n;
    ghost var acts;
    sent, offset, cipher, n, acts := Encrypt(s, 0, plain, size, null, 0);
    if sent == Ok {
      assert cipher[..size] == XorSeq(text, pad[offset..offset + size]);
      NotPending(s);
      if s.mounted && CanRead(s.db.keys, s.db.maxAttached, s.keyId.value, size) && size <= INT_MAX {
        ReadableStatus(s, size, offset);
      }
      received, result, n, acts := Decrypt(s, offset, cipher, size, null, 0);
      XorSeqCancels(text, pad[offset..offset + size]);
    }
  }

  /**
   Room for the total length of two texts does not make both encryptions succeed when there is a cache: a first text
   of one byte takes a whole entry, and the rest of the key is then too short for a second that fills what was left.
   */
  method LengthIsNotEnough(s: Session, keyId: KeyId, rest: seq<byte>) returns (first: Reply, second: Reply)
    requires s.Valid() && s.db.Clean() && s.mounted && s.keyId == Some(keyId) && s.encrypts && (s.stream || s.blockOrFile)
    requires Uncached(s, s.db.committed, keyId) && 2 <= s.cacheKeySize < |rest| <= MAX_CHUNK_SIZE
    requires CanRead(s.db.keys, s.db.maxAttached, keyId, |rest|)
    requires s.db.committed[keyId].used + 1 + |rest| == s.db.keys[keyId].total
    modifies s, s.db
    ensures s.db.faults == old(s.db.faults) ==> first.code == Ok && second.code != Ok
  {
    hide Session.Valid, Mixed, Thrifty, Spent, SameLive, Tidy, Edge, Lowered;
    NotPending(s);
    ghost var acts;
    first, acts := Perform(s, EncryptCall([0]));
    NotPending(s);
    second, acts := Perform(s, EncryptCall(rest));
  }

  lemma NotPending(s: Session)
    requires s.Valid()
    ensures !s.transaction
  {
  }
}
