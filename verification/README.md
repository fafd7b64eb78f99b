# AlphaCipher: a verified model

AlphaCipher is a one-time-pad engine. Its promise is that no byte of a pad is handed out twice. This project models the
parts of its source that promise rests on, and proves what they do.

* **Pad allocator.** `Chunks` (with `Division`), `Planner`, `Attach`, `Store`, `Allocator`: one linear pad lies in many chunk blobs. A
  request is planned over chunk boundaries, its chunks are attached, the pieces read, and a persisted record of chunk,
  offset and used bytes is advanced in a transaction. Every step of the store may fail, rollback and detach included.
* **Pad ledger.** `Ledger`, `LedgerSteps`, `LedgerRuns`: a state machine that gives every byte of the pad an owner. Single
  use, conservation and the soundness of give-back are proved for all its runs.
* **Key cache and engine.** `Sessions`, `Cache`, `Engine`: methods over session state. Each is proved to perform a run of the
  ledger (`Refines`) besides what it returns, so the theorems about runs hold of the methods. Both settings of the
  reset feature are covered: the flag is a field of the session.
* **Crashes and restarts.** `Lifetimes`: sessions one after another on the same store.
* **Several sessions.** `Readers`: a session that decrypts beside one that encrypts. `Rivals`: sessions interleaved at the
  snapshot, BEGIN and COMMIT steps of one key.
* **Messages.** `Words`, `Headers`, `HeaderCodec`, `Delta`, `Guids`, `Protocol`: the flag-driven header, its collapsed form,
  printed identifiers, and messages end to end.
* **Import, queue, handshake.** `Import`: the destructive pad import. `Queue`: the intrusive buffer queue. `Handshake`: the
  dial and answer loops. `Network`: many phones on a network that loses, repeats and reorders. `Calls`: the loops are runs
  of that network.

Conventions. A store step that fails does so without effect and counts as a fault; contracts that speak of unchanged
`faults` say what happens when there are none. Host byte order is a parameter. Numbers are natural numbers bounded where
the source's type matters; the flag word of a header is a 32-bit vector with the source's constants. Masks that cut a
number to its low bytes are written as divisions. The members cited as method contracts state results and new state; the
lemmas beside them state what that means over whole runs. The charge of an encryption is the most it may take from its
key: a whole cache entry, or its own length where that is more. The cost of several is the sum of their charges.

Where the code and what is written about it differ, the model follows the code:

* `Navajo/4.0/doc/public_api.md:96` says a cache size of zero disables caching; a streaming session then gets the default
  size (`Navajo/4.0/src/navajo.c:157-160`).
* The repository's `README.md:68-70` says a region of pad cannot be reused. For sessions one after another that is
  `Lifetimes.LiveRepeatedly`. For several sessions at once on one key it is false (`Rivals.Race`). In runs that give
  nothing back it holds exactly when no commit is behind the recorded position (`Rivals.DisjointIffTimely`); with
  give-backs that condition suffices (`Rivals.TimelyRunsApart`).
* `Navajo/4.0/phone/transport.c:51-56` says that the socket is invalidated only after both workers have stopped. A dial or
  answer made during a call is refused with `E_STARTED`, and that exit runs the clean-up which closes the socket
  (`Navajo/4.0/phone/transport.c:417-418`, `514-518`, `536-537`, `631-635`). A call in progress ends exactly when a dial or
  answer is made during it, that is, with the socket open on entry (`Handshake.Phone.DialRemote`,
  `Handshake.Phone.AnswerRemote`).
* A dial or answer that gives up still reports success (`Navajo/4.0/phone/transport.c:502-506`); only the socket tells.
* An answer may be completed by a phone it asked in an earlier attempt: an Accept does not say who sent it
  (`Network.StaleAccept`, `Network.TrustedIffSole`).
* Room for the total length of some messages does not make all of them go through when the session has a cache: one
  byte takes a whole entry (`Engine.LengthIsNotEnough`). Room for the cost of all of them does, where a message costs a
  whole entry or its own length, whichever is more. With the reset feature, and while no text is longer than a cache entry,
  room for the total length is enough and needed (`Protocol.Exchange`, `Engine.PerformAll`); what exactly one message needs
  is `Cache.Grantable`.
* An empty message repeats the previous body under offset zero (`Protocol.Encrypt`).
* Importing at an offset other than zero succeeds only inside data that is there already; otherwise it fails after the block
  was cut off the file (`Import.ImportChunk`).

`dafny verify dfyconfig.toml` checks everything.

## Model

| member | source | states |
|---|---|---|
| LedgerRuns.SingleUse | Navajo/4.0/src/navajoInt.c:880-1051 | in every run of one session, from any start and with any mix of hand-outs, cache fills, refills, give-backs, lost allocations, failures and restarts, the ranges handed out for a key are pairwise disjoint, inside the pad, and below the persisted position, and no range is of a key that is revoked or may not encrypt |
| LedgerRuns.Conservation | Navajo/4.0/src/navajoCache.c:569-600 | in every reachable state each byte below the recorded position is exactly one of: there before, handed out by exactly one grant, in the unused tail of exactly one live encrypt slot, or burned; used-bytes counts exactly these |
| LedgerRuns.GiveBackSound | Navajo/4.0/src/navajoCache.c:272-343 | when a slot ends at the recorded position its unused tail is the topmost allocated range: moving the position back to its start leaves every hand-out and every other slot below it, keeps position minus used-bytes, and the split position denotes it |
| LedgerRuns.GiveBackOwned | Navajo/4.0/src/navajoCache.c:294-312 | cutting the returned tail off takes nothing from any hand-out or any other slot |
| LedgerRuns.NextInv | Navajo/4.0/src/navajoCache.c:130-166 | every action of the engine keeps the invariant of the pad ledger |
| LedgerRuns.RunInv | Navajo/4.0/src/navajoCache.c:489-680 | so does every run |
| Ledger.InitialInv | Navajo/4.0/src/navajo.c:109-223 | a new session with an empty cache satisfies it, from any consistent records |
| Engine.PerformAll | Navajo/4.0/src/navajo.c:1401-1741 | the engine itself: after any sequence of encrypt, decrypt, mount, unmount and key calls, with any store failures, the history is exactly the ranges that the successful encryptions reported; those of a key are pairwise disjoint, non-empty, inside the pad and below the persisted position, of keys that are not revoked and may encrypt; a session that is not for encrypting has none; every encryption and decryption returned its text combined with the range it names; without failures no call fails that mounts or unmounts in turn, chooses the one key, encrypts while the key has the cost, or decrypts inside the pad; if there is no cache, or unused bytes are given back and no text is longer than a cache entry, all such calls succeed if and only if the key has room for the lengths of the texts, and once the cache is gone the used-bytes have grown by exactly the bytes handed out: none is lost |
| Engine.RefusalCodes | Navajo/4.0/src/navajo.c:1437-1471 | which code each violated condition of an encryption or decryption gives, in the order they are looked at, and that a call passes exactly when none is violated |
| Engine.RunRoundTrip | Navajo/4.0/src/navajo.c:1523-1703 | in one run or in two, in one session's life or in two: decrypting what any encryption returned, at the offset it returned, gives its text back |
| Engine.Perform | Navajo/4.0/src/navajo.c:1401-1741 | every single call is a run of the ledger; a successful encryption or decryption returns the text combined with the range it names, and only an encryption adds to the history; without failures an allowed encryption is granted if and only if the cache or the key has bytes enough, an allowed decryption whenever the store can read its range, mounting and unmounting succeed exactly in their turn, and a key is chosen exactly when it exists; whatever is set aside of the pad changes only by encrypting and unmounting, as said there |
| Lifetimes.LiveRepeatedly | README.md:68-70 | single use across crashes and restarts: over any number of sessions one after another on a keyset, each with any calls and configuration and ended without warning, the ranges that all their successful encryptions report are pairwise disjoint, inside their pads and below the persisted positions, and each reply is its text combined with its range; while the pad lasts and without failures no call fails of sessions that mount and unmount in turn, choose one key, encrypt, and decrypt inside the pad |
| Lifetimes.LiveOnce | README.md:68-70 | the ranges that the replies of one session report lie between the position it finds and the one it leaves, and no position is left behind the one it found |
| Lifetimes.GrantsBetween | Navajo/4.0/src/navajoCache.c:272-343 | the same for every run of the ledger |
| Lifetimes.NextPrior | Navajo/4.0/src/navajoCache.c:294-312 | no action, not even a give-back, touches bytes that were used before the session |
| Chunks.PlanCovers | Navajo/4.0/src/navajoInt.c:488-556 | the planned entries, read in order and concatenated, are pad[start, start+size) |
| Chunks.PlanEdgeToEdge | Navajo/4.0/src/navajoInt.c:500-546 | entries lie edge to edge, each inside its own chunk: no gap and no overlap |
| Chunks.EntryShape | Navajo/4.0/src/navajoInt.c:500-546 | entry i names chunk first+i, and its offset and length stay inside the chunk |
| Chunks.PlanEndsAt | Navajo/4.0/src/navajoInt.c:548-556 | the final (chunk, offset) denotes start+size, and in chunked mode its offset is below the chunk size |
| Chunks.CapacityExact | Navajo/4.0/src/navajoInt.c:441-502 | for every chunked plan of a non-empty request the capacity is the number of entries plus one, so the guard in the loop never fires |
| Chunks.LocateGlobal | Navajo/4.0/src/navajoInt.c:31-49 | splitting an offset into chunk and offset and recombining it gives the offset back, inside its chunk |
| Planner.PlanChunkRange | Navajo/4.0/src/navajoInt.c:403-564 | the method returns the status and fills the plan with the entries and end of the specification, none for a request of zero bytes |
| Planner.FillPlan | Navajo/4.0/src/navajoInt.c:488-556 | the loop terminates also when its first entry is empty, builds exactly the planned entries, and never meets its capacity guard |
| Keys.AdvancedOk | Navajo/4.0/include/navajoSql.h:130-132 | advancing a record by a planned request keeps position equal to used-bytes and the offset inside its chunk |
| Keys.RewoundOk | Navajo/4.0/src/navajoCache.c:313-325 | moving a record back keeps the same |
| Keys.StartReads | Navajo/4.0/src/navajoInt.c:893-939 | a planned request starts at the recorded position, or the given offset when decrypting, also when the record sits on a chunk boundary, and reads exactly that range |
| Attach.AttachChunkPlan | Navajo/4.0/src/navajoInt.c:600-644 | attaches all chunks or none; without store failures it succeeds exactly when every chunk exists and the connection has room |
| Attach.DetachChunkPlan | Navajo/4.0/src/navajoInt.c:646-682 | afterwards no entry is marked attached, whatever failed; on an unmarked plan it makes no store call, so detaching twice is harmless |
| Attach.AttachEntry | Navajo/4.0/src/navajoInt.c:617-633 | attaches one chunk and marks exactly its entry |
| Attach.DetachEntry | Navajo/4.0/src/navajoInt.c:662-679 | clears the mark even when the store fails |
| Allocator.GetKeyBytes | Navajo/4.0/src/navajoInt.c:754-1108 | success returns exactly the range of the pad that was reserved or asked for; on every exit the transaction flag is as on entry; the persisted record is unchanged or advanced by exactly size, decryption never changes it; success is only for a key that is not revoked and, when encrypting, may encrypt, failures or not, and only when no step of the store has failed; without failures the result code is exactly the specified one |
| Allocator.KeyBytesAnswers | Navajo/4.0/src/navajoInt.c:780-968 | for every result code of a request the whole condition, in the fields of the key and its record, under which it is given without failures, down to the number of chunks |
| Allocator.PlannedAnswers | Navajo/4.0/src/navajoInt.c:441-502 | a request over chunks passes the planner up to 499 of them and the connection up to those it can attach: beyond what is left of the first chunk, 498 whole ones, or one fewer than the connection takes |
| Allocator.RunPlan | Navajo/4.0/src/navajoInt.c:958-1107 | whichever step fails, no entry stays attached and the transaction flag is clear; with working rollback and detach a failed request changed nothing unless it failed after the commit |
| Allocator.UsePlan | Navajo/4.0/src/navajoInt.c:969-1066 | reads an attached plan, advances the record when encrypting, and detaches whatever happens |
| Allocator.Allocate | Navajo/4.0/src/navajoInt.c:969-1051 | between BEGIN and COMMIT: success has committed exactly this advance |
| Allocator.AllocateOrAbandon | Navajo/4.0/src/navajoInt.c:1083-1095 | a failed allocation is rolled back and the flag cleared even when the rollback fails |
| Allocator.Abandon | Navajo/4.0/src/navajoInt.c:1088-1095 | clears the transaction flag whether or not the rollback works |
| Allocator.ReadPlan | Navajo/4.0/src/navajoInt.c:982-1031 | reading the entries at a running cursor fills the buffer with their concatenation |
| Allocator.ReadRange | Navajo/4.0/src/navajoInt.c:935-1051 | a request its row allows returns its range of the pad |
| Allocator.RunRange | Navajo/4.0/src/navajoInt.c:958-1051 | a planned request returns its range of the pad |
| Allocator.RequestFits | Navajo/4.0/src/navajoInt.c:875-908 | a request inside the pad can be planned, read and stored back |
| Allocator.SmallPlan | Navajo/4.0/src/navajoInt.c:987-995 | chunks the storage library can hold are never read beyond its limits: the two overflow exits are dead |
| Allocator.SameReads | Navajo/4.0/src/navajoInt.c:600-644 | attachment marks do not change what a plan reads |
| Store.KeyStore.Begin | Navajo/4.0/src/navajoSql.c:28-45 | opens a transaction, or fails without effect |
| Store.KeyStore.Commit | Navajo/4.0/src/navajoSql.c:47-64 | makes the working records the persisted ones, or fails without effect |
| Store.KeyStore.Rollback | Navajo/4.0/src/navajoSql.c:66-83 | returns to the persisted records; may fail and leave the transaction open |
| Store.KeyStore.SetRecord | Navajo/4.0/src/navajoInt.c:684-752 | changes one row inside the open transaction and nothing else |
| Store.KeyStore.ReadBlob | Navajo/4.0/src/navajoInt.c:997-1027 | copies one entry of an attached chunk to the cursor and nothing else |
| Cache.GetCachedKeyBytes | Navajo/4.0/src/navajoCache.c:424-684 | whatever path is taken (hit, refill, decrypt window, fallback) the bytes returned are pad[offset, offset+size) for the offset reported or requested, and the history gains exactly that grant; without failures an encryption under a readable key is granted if and only if a slot has enough left, or the bytes nobody has, with those given back, are enough, and it costs the key a whole cache entry or its own size at most; nothing is answered for a key that is revoked or, when encrypting, may not encrypt; a tidy key, whose one slot ends at the recorded position, stays tidy and its first byte not handed out moves on by exactly the size, as long as requests are no larger than a slot and unused bytes are given back; any request is granted that the direct read would grant, except after a give-back |
| Cache.TidyGrants | Navajo/4.0/src/navajoCache.c:489-562 | of a tidy key exactly those encryptions are granted that fit behind the first byte not handed out |
| Cache.NewSlotAnswers | Navajo/4.0/src/navajoCache.c:104-166 | for every answer about a new slot the whole condition under which it is given |
| Cache.TryCache | Navajo/4.0/src/navajoCache.c:489-680 | the part answered from slots refines the ledger and returns the same bytes as a direct read; without failures it answers only when a slot has, or is given, enough, and otherwise has done nothing but a give-back |
| Cache.FindOrFill | Navajo/4.0/src/navajoCache.c:489-562 | the slot found or filled has enough unused bytes for the request |
| Cache.Refill | Navajo/4.0/src/navajoCache.c:501-537 | a slot that is too small is freed before a new one is filled, except that without the reset feature an encrypt slot is kept |
| Cache.ServeFound | Navajo/4.0/src/navajoCache.c:564-670 | an encrypt slot serves the front of its tail; a decrypt slot serves a request strictly inside its window |
| Cache.ServeSlot | Navajo/4.0/src/navajoCache.c:569-600 | serving moves the front of the tail out of the slot and into the history; an emptied slot is cleared |
| Cache.ReadWindow | Navajo/4.0/src/navajoCache.c:620-655 | a window read returns the pad at the requested offset |
| Cache.NewCachedKey | Navajo/4.0/src/navajoCache.c:88-174 | fills a free slot with a freshly allocated range, or with a window read at the offset |
| Cache.FindCachedKey | Navajo/4.0/src/navajoCache.c:50-86 | the first slot in use for this key and direction, or none exactly when there is none |
| Cache.FindFreeSlot | Navajo/4.0/src/navajoCache.c:127-171 | the first free slot, or none exactly when there is none |
| Cache.FreeCachedKey | Navajo/4.0/src/navajoCache.c:176-399 | frees the slot; with the reset feature and no failures the tail of a slot in use for encrypting is given back exactly when it ends at the recorded position: the used-bytes of its key are then where the bytes served from the slot end; otherwise it is burned; no other key changes |
| Cache.GiveBackTail | Navajo/4.0/src/navajoCache.c:236-375 | the give-back transaction either moves the record to the tail's start or changes nothing, and always clears the flag |
| Cache.FreeAllCachedKeys | Navajo/4.0/src/navajoCache.c:401-422 | every slot is freed and the cache is gone; with the reset feature and no failures every tidy key ends with its used-bytes at the first byte not handed out |
| Cache.RoomStatus | Navajo/4.0/src/navajoInt.c:853-961 | a readable key that may encrypt is granted exactly when it has that many unused bytes |
| Cache.ReadDirect | Navajo/4.0/src/navajoCache.c:676-680 | the fallback: a direct read, entered in the history |
| Engine.Encrypt | Navajo/4.0/src/navajo.c:1401-1573 | output is the input combined with the pad at the returned offset, one grant longer history; an empty or refused call changes nothing; success is only for an encrypting stream, block or file session with a mounted keyset, a chosen key that is not revoked and may encrypt, and a size up to the limit; without failures an allowed call is granted if and only if the cache or the key has bytes enough, and what it costs the key is bounded; the buffers may be the same |
| Engine.Decrypt | Navajo/4.0/src/navajo.c:1575-1741 | output is the input combined with the pad at the given offset; records, history and what is set aside to encrypt never change; success is only for a decrypting session with a mounted keyset and a chosen key that is not revoked; succeeds without failures whenever the range may be read |
| Engine.RoundTrip | Navajo/4.0/src/navajo.c:1523-1703 | decrypting at the returned offset with the same pad gives the plaintext back, whatever the chunk sizes, positions and caches of the two sides, and without failures the sender is granted a range while its key has room and the receiver any range it may read |
| Engine.RoundTripAlone | Navajo/4.0/src/navajo.c:1401-1741 | the same for one session used in both directions |
| Readers.RoundTripBeside | Navajo/4.0/test/test.c:321-371 | the same for an encrypting and a decrypting session on one keyset at the same time, each with its own connection; both are then ready for the next message, and the history of the first has grown by one range |
| Readers.StaysReader | Navajo/4.0/src/navajoCache.c:620-674 | decrypting never sets bytes aside to encrypt: whatever the cache does, no encrypt slot appears |
| Engine.KeyBytes | Navajo/4.0/src/navajo.c:1500-1552 | through the cache or around it, the same bytes |
| Engine.ReadableStatus | Navajo/4.0/src/navajoInt.c:875-961 | no request inside the pad of a readable key is refused |
| Allocator.FewChunks | Navajo/4.0/src/navajoInt.c:441-468 | a range of at most n-2 chunk sizes touches at most n chunks |
| Engine.MountKeySet | Navajo/4.0/src/navajo.c:335-442 | mounts once; a second mount is refused |
| Engine.UnmountKeySet | Navajo/4.0/src/navajo.c:444-521 | frees the cache first, which is gone even when closing fails; success drops the key and leaves the store clean; with the reset feature and no failures a key whose only slot ends at the recorded position ends with its used-bytes where the last hand-out from that slot ended |
| Engine.SetSessionKey | Navajo/4.0/src/navajo.c:588-710 | chooses a key that exists, or none; otherwise nothing changes |
| Sessions.CreateSession | Navajo/4.0/src/navajo.c:109-223 | refuses a cache size beyond the chunk limit; otherwise the session starts with nothing mounted and satisfies the start of the ledger, and a streaming one that encrypts or decrypts gets a cache of two empty slots, of 1048576 bytes when the caller gives zero, and no other does |
| Engine.LengthIsNotEnough | Navajo/4.0/src/navajoCache.c:489-562 | room for the total length of two texts is not enough with a cache: a first text of one byte takes a whole entry, and a second that would just fit the key is refused |
| Rivals.CounterExact | Navajo/4.0/include/navajoSql.h:130-132 | in every interleaving of several sessions, stale ones included, used-bytes has grown by exactly the total length of the ranges that the sessions hold |
| Rivals.LockExact | Navajo/4.0/src/navajoInt.c:969-1051 | in every interleaving at most one session is inside a transaction, that one has the lock, and the lock is free exactly when none is |
| Rivals.QuietRunsApart | Navajo/4.0/src/navajoInt.c:843-977 | when no commit and no give-back on the key falls between a session's reading of the row and its BEGIN, the ranges of all sessions are disjoint |
| Rivals.TimelyRunsApart | Navajo/4.0/src/navajoInt.c:843-977 | the same when every commit finds the recorded position no further than the one it read, give-backs included |
| Rivals.DisjointIffTimely | Navajo/4.0/src/navajoInt.c:843-977 | in runs that give nothing back: all ranges are disjoint if and only if no session commits from a snapshot behind the recorded position |
| Rivals.StaleCommitOverlaps | Navajo/4.0/src/navajoInt.c:843-977 | a commit from a stale snapshot allocates a byte some session already has |
| Rivals.OverlapStays | Navajo/4.0/src/navajoInt.c:1037-1051 | without give-backs an overlap never goes away |
| Rivals.Race | Navajo/4.0/src/navajoInt.c:843-977 | two sessions can be given the same bytes |
| Bytes.XorSeqCancels | Navajo/4.0/include/navajoInt.h:377-402 | the same pad applied twice gives the plaintext |
| Bytes.XorOfWords | Navajo/4.0/include/navajoInt.h:377-402 | one exclusive or of two words is the bytewise exclusive or of their bytes, in either byte order and any word size |
| XorLoop.XorBytes | Navajo/4.0/include/navajoInt.h:392-402 | byte form: the output prefix is the exclusive or, the rest unchanged, also in place |
| XorLoop.XorWords | Navajo/4.0/include/navajoInt.h:377-390 | word form: the same result for every length, word size and byte order, also in place |
| XorLoop.XorWholeWords | Navajo/4.0/include/navajoInt.h:377-390 | the word loop covers the largest multiple of the word size |
| Headers.CodecRoundTrip | Navajo/4.0/src/CipherTextHeader.c:235-528 | decoding an encoded header followed by any bytes gives the header back and stops at its end if and only if the header is encodable |
| Headers.DecodesKept | Navajo/4.0/src/CipherTextHeader.c:235-528 | for every header, what decoding returns, and that it stops exactly at the end |
| Headers.TruncatedIsShort | Navajo/4.0/src/CipherTextHeader.c:374-390 | every proper prefix of an encoded header is refused |
| Headers.FlagsReadBack | Navajo/4.0/src/CipherTextHeader.c:105-152 | the flags of all fields can be read back from the word independently: none collide |
| Headers.FlagLayout | Navajo/4.0/src/CipherTextHeader.c:105-152 | which bits of the leading word say which fields follow and which one-bit fields are set; all others are zero |
| Headers.EncodedLayout | Navajo/4.0/src/CipherTextHeader.c:292-368 | where each field of an encoded header stands: kernel and waldo, key, offset, length, algorithm, each only when present |
| Headers.NarrowestWidth | Navajo/4.0/src/CipherTextHeader.c:292-331 | a number is written in the narrowest of the four widths that it fits in |
| Headers.InternalLayout | Navajo/4.0/src/CipherTextHeader.c:248-268 | the leading word of an internal header: its two highest bits set, and the low two bytes of the offset in its middle |
| Headers.InternalReads | Navajo/4.0/src/CipherTextHeader.c:248-268 | an internal header returns the low 16 bits of the offset |
| Headers.NumberReads | Navajo/4.0/src/CipherTextHeader.c:292-331 | the 0, 2, 4 and 8 byte forms of a number lose nothing |
| Headers.EncodedSize | Navajo/4.0/src/CipherTextHeader.c:235-372 | a header takes 4 to 57 bytes |
| HeaderCodec.StructureToBuffer | Navajo/4.0/src/CipherTextHeader.c:235-372 | the method writes exactly the encoding, fails exactly when it does not fit, and touches nothing behind it; a header of flags alone is written whatever size is given |
| HeaderCodec.WriteToNetBuffer | Navajo/4.0/src/CipherTextHeader.c:217-233 | writes the value at the cursor and nothing else, or refuses without effect |
| HeaderCodec.ReadFromNetBuffer | Navajo/4.0/src/CipherTextHeader.c:374-390 | reads the bytes at the cursor, or refuses |
| HeaderCodec.WriteFields | Navajo/4.0/src/CipherTextHeader.c:271-353 | writes all fields behind the flags and collects exactly their flags |
| HeaderCodec.CipherTextHeader.BufferToStructure | Navajo/4.0/src/CipherTextHeader.c:392-528 | fills the structure with exactly the decoded header, or leaves it uninitialized when the buffer is short |
| HeaderCodec.CipherTextHeader.ReadFields | Navajo/4.0/src/CipherTextHeader.c:430-522 | reads the fields in the order of the flags, each from its place |
| Delta.StepSurvives | Navajo/4.0/src/CipherTextHeader.c:163-215 | collapse, encode, decode and expand give a header back, up to the internal flag, if and only if it meets a condition on it and its predecessor |
| Delta.StreamInSync | Navajo/4.0/src/CipherTextHeader.c:534-595 | over a lossless stream every header is rebuilt if and only if each meets that condition; the two previous headers then agree at every step |
| Delta.PlainStreamSurvives | Navajo/4.0/src/protocol.c:480-485 | streams under one non-null key with non-empty bodies, one algorithm and no extra flags stay in sync in both modes |
| Delta.CollapseShrinks | Navajo/4.0/src/CipherTextHeader.c:156-162 | collapsing never lengthens the encoding, and an internal header takes four bytes |
| Delta.CollapseStructure | Navajo/4.0/src/CipherTextHeader.c:163-215 | the in-place form equals the specification |
| Delta.ExpandStructure | Navajo/4.0/src/CipherTextHeader.c:534-595 | the in-place form equals the specification |
| Guids.GuidRoundTrip | Navajo/4.0/src/protocol.c:283-328 | an identifier printed and scanned is the same, in either byte order, whatever follows the text |
| Guids.ScanUndoesPrint | Navajo/4.0/src/protocol.c:307-311 | scanning undoes printing for any format of hexadecimal fields and dashes |
| Guids.GuidToHexInjective | Navajo/4.0/src/protocol.c:283-302 | different identifiers print differently |
| Guids.GuidPlaces | Navajo/4.0/src/protocol.c:283-302 | what stands at each place of the text: eight digits of the word in bytes 0 to 4, four of bytes 4 to 6, four of bytes 6 to 8, then two for each single byte, with the dashes between |
| Guids.PrintedDigit | Navajo/4.0/src/protocol.c:283-302 | the hexadecimal digit at each place of a printed number |
| Guids.PrintedIffText | Navajo/4.0/src/protocol.c:283-302 | a text is printed for some identifier if and only if it consists of eight, four, four, four and twelve digits in lower case with dashes between |
| Guids.FourDashes | Navajo/4.0/src/protocol.c:307-328 | a text with fewer than four dashes is not scanned as an identifier |
| Guids.DigitValues | Navajo/4.0/src/protocol.c:307-328 | digits of either case are scanned with the same value, and no other character is a digit |
| Guids.OtherSpellingsLost | Navajo/4.0/src/protocol.c:408-413 | a key listed under a spelling with any other character, such as a capital, is never found from a header |
| Protocol.Exchange | Navajo/4.0/src/protocol.c:433-560 | over any sequence of non-empty messages each delivered message is the one sent; the receiver looks for its key once more than there are undelivered messages at most; without failures, between a sender ready to encrypt and a prepared receiver, every message arrives and the key is looked for at most once if the key has the cost of all of them; for a careful sender, one without a cache or one that gives unused bytes back and whose texts are no longer than a cache entry, every message arrives if and only if the key has as many bytes left as they are long |
| Protocol.CarefulAtFirst | Navajo/4.0/src/navajoCache.c:489-562 | a sender that gives back and whose cache is empty is careful, and what it has not allocated is what it has not handed out |
| Protocol.CarefulWithoutCache | Navajo/4.0/src/navajo.c:1500-1541 | so is every sender without a cache |
| Protocol.Relay | Navajo/4.0/src/protocol.c:433-560 | one message: delivered as sent; without failures on its side the sender sends it if and only if its cache or key has bytes enough, and takes no more than its cost; a careful sender sends it if and only if it fits what has not been handed out, and loses exactly its length; without failures on its side a prepared receiver gets what was sent |
| Protocol.Encrypt | Navajo/4.0/src/protocol.c:433-518 | the packet is the encoded header of the range used followed by the text combined with that range; an empty message repeats the kept body under offset zero; without failures a permitted call is granted if and only if the cache or the key has bytes enough |
| Protocol.Decrypt | Navajo/4.0/src/protocol.c:520-560 | combines as many bytes behind the header as it announces with the range it gives, under the key it names; a packet too short for its header changes nothing |
| Protocol.DecryptMessage | Navajo/4.0/src/protocol.c:540-556 | follows the named key exactly when it is not the session's; a session that has mounted a keyset refuses another |
| Protocol.FollowKey | Navajo/4.0/src/protocol.c:542-548 | after success the session's identifier is the one in the header |
| Protocol.SetSessionKey | Navajo/4.0/src/protocol.c:390-431 | mounts the keyset that lists the key; refused when none does or one is mounted already |
| Protocol.FindKeySet | Navajo/4.0/src/protocol.c:402-416 | the first keyset that lists the key, or none exactly when none does |
| Protocol.Assemble | Navajo/4.0/src/protocol.c:487-513 | header and body end up adjacent, in the buffer when they fit, else in a new one |
| Import.ImportChunk | Navajo/4.0/src/navajoGen.c:158-414 | on success the file loses exactly its last size bytes and the chunk holds them, byte for byte, in reverse order of blocks; data that was at least that long is otherwise unchanged, and shorter data is replaced, at offset zero only; no step has failed then; on failure the committed chunks are unchanged and the file is a prefix; without failures it succeeds exactly when the offset is zero or the range is inside the data that is there, and otherwise bytes are lost; the cuts, writes and commits that the file and the database record are a beginning of the one script of an import, all of it on success, and after each of them no byte is in both places |
| Import.ImportTwice | Navajo/4.0/src/navajoGen.c:158-414 | two imports into disjoint ranges of one chunk, from one file or two: what the first put in its place is there after the second, whether or not that succeeds |
| Import.ImportAnswers | Navajo/4.0/src/navajoGen.c:190-227 | which refusal each violated condition gives, in the order they are looked at |
| Import.MoveBlocks | Navajo/4.0/src/navajoGen.c:294-354 | the loop of the above: for every block one cut and then one write, in this order, and after each of them the file and the chunk are as the blocks moved so far say |
| Import.MoveBlock | Navajo/4.0/src/navajoGen.c:307-350 | one round: the block is recorded as cut off before it is recorded as written |
| Import.ImportInTransaction | Navajo/4.0/src/navajoGen.c:260-374 | between opening and committing the transaction, with the same record of events |
| Import.BlockReverseSameBytes | Navajo/4.0/src/navajoGen.c:307-354 | the reversal of blocks is a permutation |
| Import.BlockReverseAt | Navajo/4.0/src/navajoGen.c:307-354 | which byte of the file ends up at which place |
| Import.AppendsBlock | Navajo/4.0/src/navajoGen.c:338-350 | each block goes behind those moved before |
| Import.KeyDatabase.UpdateZeroBlob | Navajo/4.0/include/navajoSql.h:59-63 | a chunk that has no data, or less than asked for, gets that many zeros; any other, and every other chunk, stays as it is |
| Queue.BufferQueue.Pop | Navajo/4.0/phone/queue.c:138-179 | takes the head of the sequence, links it to itself; an empty queue grows first or is refused; a growth that fails half-way keeps what it got |
| Queue.BufferQueue.Push | Navajo/4.0/phone/queue.c:184-225 | appends at the tail; a foreign or queued buffer is refused without change |
| Queue.BufferQueue.Grow | Navajo/4.0/phone/queue.c:40-74 | adds new buffers at the tail; partial on failure |
| Queue.BufferQueue.Append | Navajo/4.0/phone/queue.c:65-69 | head, tail and links again agree with the sequence |
| Queue.Pool.Take | Navajo/4.0/phone/queue.c:138-179 | two queues: the buffer moves from the head of one to the held ones; the other queue is unchanged |
| Queue.Pool.Give | Navajo/4.0/phone/queue.c:184-225 | a held buffer moves to the tail of either queue; one in a queue is refused and nothing changes |
| Queue.CountsAddUp | Navajo/4.0/phone/queue.c:161-170 | buffers created are those in the two queues plus those held; a buffer is linked to itself exactly when it is held |
| Handshake.Phone.DialRemote | Navajo/4.0/phone/transport.c:404-520 | completes exactly by the first packet of five bytes that starts with 0x80 and carries its own address, before tries and stray credits run out; what it sends, only in answer to it, are five bytes that start with 0x40 and carry the address they go to; at most tries+strays-1 rounds; without failures of the system only a broken socket makes it fail; the socket is open afterwards only when this dial completed: a dial made during a call is refused, and its clean-up closes the socket of that call |
| Handshake.Phone.AnswerRemote | Navajo/4.0/phone/transport.c:522-637 | completes exactly by the first packet of five bytes that starts with 0x40 and carries its own address; sends only five bytes that start with 0x80 and carry the address they go to, once a round; the same bound, and the same end of a call in progress |
| Handshake.PacketsDiffer | Navajo/4.0/phone/transport.c:472-482 | packets of the two kinds, or for different addresses, differ |
| Handshake.PacketForm | Navajo/4.0/phone/transport.c:472-482 | the five bytes of a packet, and that no other packet is one |
| Handshake.NextRound | Navajo/4.0/phone/transport.c:444-506 | the round that follows any wait: one that brings nothing costs a try, a stray packet costs a credit, and the loop ends with the packet, an error, or the last credit |
| Handshake.EndIsDetermined | Navajo/4.0/phone/transport.c:444-506 | when and how a loop ends is determined by what arrives |
| Handshake.BoundIsReached | Navajo/4.0/phone/transport.c:565-623 | the bound is attained for all limits |
| Network.NextInv | Navajo/4.0/phone/transport.c:471-496 | every step of a network that loses, repeats and reorders keeps the history consistent, which only grows |
| Network.AnswerImpliesAccept | Navajo/4.0/phone/transport.c:604-613 | in every run a completed answerer was accepted, in a dial that may have failed since, by a phone it had asked, which had received its Connect |
| Network.SoleRemoteAccepted | Navajo/4.0/phone/transport.c:604-613 | it is the phone in its Connect, when it has asked no other |
| Network.StaleAccept | Navajo/4.0/phone/transport.c:600-613 | once it has asked any other phone, a late Accept of that one can complete a call to a phone that never accepted |
| Network.TrustedIffSole | Navajo/4.0/phone/transport.c:600-613 | over all runs: a completed answer implies acceptance by the phone asked if and only if the answerer asks no other phone |
| Network.DialImpliesConnect | Navajo/4.0/phone/transport.c:471-496 | a completed dialer had accepted, and was asked by, the phone it answers |
| Calls.DialOn | Navajo/4.0/phone/transport.c:404-520 | the dial loop likewise; with an open socket, the phone at the other end had asked for this call and was accepted; made during a call it is the end of that call |
| Calls.AnswerOn | Navajo/4.0/phone/transport.c:522-637 | the answer loop on the network: whatever the others do meanwhile, as long as what arrives has been sent, what it sends and how it ends is a run of attempt, requests, deliveries, and start or end; the network then agrees with the phone about its call and every packet it sent; with an open socket and no other phone asked, the phone it asked has accepted it |
| Calls.StrayRounds | Navajo/4.0/phone/transport.c:444-506 | rounds that do not bring the expected packet are steps of the network that leave the phone waiting |

## Left out

- Engine.Encrypt: does not model offsets near 2^64; offset plus size is exact, as pads are below that size.
- Cache.GetCachedKeyBytes: the equivalence with the direct read's result code is not stated after a give-back, because the
  freed slot may then be refilled from a moved position; that a key with room is granted is stated in all cases.
- Protocol.Decrypt: memory behind the buffer is not modelled; a header that announces more cipher text than there is
  memory for is excluded.
- HeaderCodec.StructureToBuffer: a header of flags alone, for which the source does not look at the size it is given,
  needs a buffer of four bytes.
- Protocol.Exchange: for a sender that is not careful (a cache without give-back, texts longer than a cache entry, or bytes
  set aside that can no longer be given back), that every message arrives is stated one way for the conversation, by its
  cost; if and only if is stated message by message (`Protocol.Relay`).
- Guids.HexToGuid: does not model the blanks, signs and 0x prefixes that sscanf accepts inside a field.
- Protocol.SetSessionKey: a session mounts the one keyset it was made with; the path found only decides whether one is.
- Delta.ExpandStructure: header and previous header are distinct structures, as in the source's calls.
- Sessions.CreateSession: the defaults are two slots of 1048576 bytes; on Symbian the source has one of 32768.
- Readers.RoundTripBeside: the reader holds no encrypt slots; sessions that all encrypt are `Rivals`. A file lock held by
  the other connection is one of the failures a store step may have.
- Sessions.Session: stale field values of freed slots are normalised to an empty slot; only slots in use are read.
- Queue.BufferQueue: negative growth is excluded; critical sections are taken as atomic, so two threads never push one buffer.
- Import.ImportChunk: file and database are modelled by their contents; a step that fails has no effect.
- SQL text, prepared statements and blob handles: the store is a map of records and chunk contents.
- Chunk file names and paths: a chunk is its number.
- Memory allocation failures of the engine, ownership of buffers, and freeing of caller buffers.
- Key identifiers longer than the slots' buffer, which the cache cuts off; a key's keyset lists shorter ones.
- Lifetimes.LiveRepeatedly: a crash is placed between calls; one inside a call leaves the store as a call that fails there does.
- Mutexes: each public call on a session is atomic.
- Checksums, compression and extended flags of headers: declared by the source but neither written nor read.
- Queue destruction and buffer freeing; provider scanning, key listing and key properties.
- The voice path, sockets beyond the two loops, threads, and the user interface.
- Randomness and secrecy of pads: not decided by this code.
