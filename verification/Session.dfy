/** The state of one engine session. */
module Sessions {
  import opened Results
  import opened Bytes
  import opened Keys
  import opened Ledger
  import opened Store

  const DEFAULT_CACHE_KEYS: nat := 2
  const DEFAULT_CACHE_KEY_SIZE: nat := 1048576

  class Session {
    const db: KeyStore
    const resetCachedKeys: bool          // is give-back of unused cached bytes compiled in?
    const encrypts: bool                 // session type bits
    const decrypts: bool
    const stream: bool
    const blockOrFile: bool
    const cacheKeySize: nat
    var mounted: bool
    var transaction: bool
    var keyId: Option<KeyId>
    var slots: seq<CachedKey>            // empty when there is no cache
    ghost const pads: map<KeyId, seq<byte>>
    ghost var owners: map<KeyId, seq<Owner>>
    ghost var log: seq<Grant>

    ghost function TheVault(): Vault
    {
      Vault(db.keys, pads)
    }

    /** Is caching worthwhile for this kind of session? Streaming sessions only. */
    static predicate StreamCached(stream: bool, encrypts: bool, decrypts: bool)
    {
      stream && (encrypts || decrypts)
    }

    predicate CacheEnabled()
    {
      cacheKeySize > 0 || StreamCached(stream, encrypts, decrypts)
    }

    /** A new session, nothing mounted yet. A streaming session gets an empty cache. */
    constructor (db: KeyStore, ghost pads: map<KeyId, seq<byte>>, resetCachedKeys: bool,
                 encrypts: bool, decrypts: bool, stream: bool, blockOrFile: bool, cacheSize: nat)
      requires db.Settled() && db.working == db.committed
      requires db.keys.Keys == pads.Keys == db.committed.Keys
      requires forall k :: k in db.committed ==> KeyOk(db.keys[k], pads[k], db.committed[k])
      ensures Valid() && !mounted && keyId == None && this.db == db && this.pads == pads
      ensures Initial(TheVault(), View())
      ensures this.resetCachedKeys == resetCachedKeys && this.encrypts == encrypts && this.decrypts == decrypts
      ensures this.stream == stream && this.blockOrFile == blockOrFile
      ensures StreamCached(stream, encrypts, decrypts) ==>
        && slots == Repeat(FREE_SLOT, DEFAULT_CACHE_KEYS)
        && cacheKeySize == if cacheSize != 0 then cacheSize else DEFAULT_CACHE_KEY_SIZE
      ensures !StreamCached(stream, encrypts, decrypts) ==> slots == [] && cacheKeySize == 0
    {
      var useCache := StreamCached(stream, encrypts, decrypts);
      this.db, this.resetCachedKeys := db, resetCachedKeys;
      this.encrypts, this.decrypts, this.stream, this.blockOrFile := encrypts, decrypts, stream, blockOrFile;
      this.cacheKeySize := if !useCache then 0 else if cacheSize != 0 then cacheSize else DEFAULT_CACHE_KEY_SIZE;
      this.mounted, this.transaction, this.keyId := false, false, None;
      this.slots := if useCache then Repeat(FREE_SLOT, DEFAULT_CACHE_KEYS) else [];
      this.pads := pads;
      this.owners := map k | k in db.committed :: Repeat(Prior, db.committed[k].used);
      this.log := [];
      new;
      InitialInv(TheVault(), View());
    }

    /** The ledger state this session has reached: what is persisted, what is cached, and the history. */
    ghost function View(): Machine
      reads this, db
    {
      Machine(db.committed, slots, owners, log)
    }

    /** All of these records are consistent with the keys and pads. */
    ghost predicate RecordsOk(records: map<KeyId, Record>)
    {
      && db.keys.Keys == pads.Keys == records.Keys
      && forall k :: k in records ==> KeyOk(db.keys[k], pads[k], records[k])
    }

    /**
     The persisted records, and those the connection sees inside a transaction left open, are consistent. Only a session
     with a cache has slots.
     */
    ghost predicate Sound()
      reads this, db
    {
      db.Settled() && RecordsOk(db.working) && RecordsOk(db.committed) && (slots != [] ==> cacheKeySize > 0)
    }

    /** No transaction pending, all records consistent, and the ledger's invariant holds. */
    ghost predicate Valid()
      reads this, db
    {
      !transaction && Sound() && Inv(TheVault(), View())
    }
  }

  /** Creates a session, unless the cache size asked for is out of range. */
  method CreateSession(db: KeyStore, ghost pads: map<KeyId, seq<byte>>, resetCachedKeys: bool,
                       encrypts: bool, decrypts: bool, stream: bool, blockOrFile: bool, cacheSize: nat)
    returns (code: Code, session: Session?)
    requires db.Settled() && db.working == db.committed
    requires db.keys.Keys == pads.Keys == db.committed.Keys
    requires forall k :: k in db.committed ==> KeyOk(db.keys[k], pads[k], db.committed[k])
    ensures code == (if cacheSize > INT_MAX then Overflow
                     else if cacheSize > MAX_CHUNK_SIZE then MaximumKeySizeExceeded else Ok)
    ensures code != Ok ==> session == null
    ensures code == Ok ==>
      && session != null && fresh(session) && session.Valid() && Initial(session.TheVault(), session.View())
      && !session.mounted && session.keyId == None && session.db == db && session.pads == pads
      && session.resetCachedKeys == resetCachedKeys && session.encrypts == encrypts && session.decrypts == decrypts
      && session.stream == stream && session.blockOrFile == blockOrFile
      && session.cacheKeySize == EntrySize(stream, encrypts, decrypts, cacheSize)
      && session.slots == (if session.cacheKeySize > 0 then Repeat(FREE_SLOT, DEFAULT_CACHE_KEYS) else [])
    ensures code == Ok ==>
      && |session.slots| == (if stream && (encrypts || decrypts) then 2 else 0)
      && session.cacheKeySize == (if !(stream && (encrypts || decrypts)) then 0
                                  else if cacheSize == 0 then 1048576 else cacheSize)
      && (session.CacheEnabled() <==> stream && (encrypts || decrypts))
    ensures code == Ok ==> cacheSize <= 900000000
  {
    hide Session.Valid, Initial, KeyOk;
    if cacheSize > INT_MAX {
      return Overflow, null;
    } else if cacheSize > MAX_CHUNK_SIZE {
      return MaximumKeySizeExceeded, null;
    }
    session := new Session(db, pads, resetCachedKeys, encrypts, decrypts, stream, blockOrFile, cacheSize);
    return Ok, session;
  }

  /** The size of a cache entry: none without a cache, a default when the caller leaves it open. */
  function EntrySize(stream: bool, encrypts: bool, decrypts: bool, cacheSize: nat): nat
  {
    if !Session.StreamCached(stream, encrypts, decrypts) then 0
    else if cacheSize != 0 then cacheSize else DEFAULT_CACHE_KEY_SIZE
  }
}
