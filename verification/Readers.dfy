/** A session that only decrypts, beside one that encrypts, each with its own connection to the same keyset. */
module Readers {
  import opened Results
  import opened Bytes
  import opened Keys
  import opened Ledger
  import opened LedgerRuns
  import opened Sessions
  import opened Cache
  import opened Allocator
  import opened Chunks
  import Engine
  import Lifetimes

  /** The session may go on decrypting: its records and windows are sound, and it has nothing set aside to encrypt. */
  ghost predicate Reader(s: Session)
    reads s, s.db
  {
    !s.transaction && s.Sound() && forall i :: 0 <= i < |s.slots| ==> ReadOnly(s.TheVault(), s.slots[i])
  }

  ghost predicate ReadOnly(v: Vault, slot: CachedKey)
  {
    SlotOk(v, slot) && !Live(slot)
  }

  /** The history of a reader begins anew from what is recorded. */
  ghost method Resume(s: Session)
    requires Reader(s)
    modifies s`owners, s`log
    ensures s.Valid() && Lifetimes.PriorBelow(s.View(), Lifetimes.Used(s.db.committed))
    ensures s.log == []
  {
    hide Inv, Session.RecordsOk, ReadOnly, Lifetimes.PriorBelow;
    s.owners := map k | k in s.db.committed :: Repeat(Prior, s.db.committed[k].used);
    s.log := [];
    RecordsKeysOk(s);
    ReaderInv(s.TheVault(), s.View());
  }

  lemma RecordsKeysOk(s: Session)
    requires s.RecordsOk(s.db.committed)
    requires s.owners == map k | k in s.db.committed :: Repeat(Prior, s.db.committed[k].used)
    ensures KeysOk(s.TheVault(), s.View())
    ensures forall k :: k in s.owners ==> s.owners[k] == Repeat(Prior, s.db.committed[k].used)
  {
  }

  lemma ReaderInv(v: Vault, m: Machine)
    requires KeysOk(v, m) && m.log == [] && forall s :: 0 <= s < |m.slots| ==> ReadOnly(v, m.slots[s])
    requires forall k :: k in m.owners ==> m.owners[k] == Repeat(Prior, m.recs[k].used)
    ensures Inv(v, m) && Lifetimes.PriorBelow(m, Lifetimes.Used(m.recs))
  {
  }

  /** A run that leaves the records as they are sets nothing aside either. */
  lemma StaysReader(s: Session, before: Machine, acts: seq<Action>)
    requires s.Valid() && Inv(s.TheVault(), before) && Refines(s, before, acts)
    requires Lifetimes.PriorBelow(before, Lifetimes.Used(before.recs)) && s.db.committed == before.recs
    ensures Reader(s)
  {
    hide Inv, Run, After, Lifetimes.PriorBelow;
    Lifetimes.RunPrior(s.TheVault(), before, acts, Lifetimes.Used(before.recs));
    forall i | 0 <= i < |s.slots|
      ensures ReadOnly(s.TheVault(), s.slots[i])
    {
      NothingLive(s.TheVault(), s.View(), i);
    }
  }

  lemma NothingLive(v: Vault, m: Machine, i: nat)
    requires Inv(v, m) && i < |m.slots| && Lifetimes.PriorBelow(m, Lifetimes.Used(m.recs))
    ensures ReadOnly(v, m.slots[i])
  {
    InvSlot(v, m, i);
    if Live(m.slots[i]) {
      Lifetimes.TailAboveFloor(v, m, i, Lifetimes.Used(m.recs));
      TailRecorded(v, m, i);
    }
  }

  lemma TailRecorded(v: Vault, m: Machine, i: nat)
    requires Inv(v, m) && LiveSlot(m, i)
    ensures TailStart(m.slots[i]) < m.recs[m.slots[i].keyId].used
  {
    var k := m.slots[i].keyId;
    assert Owned(m, k) && SlotOwned(m, k, i) && SlotOf(m, k, i);
  }

  /** Decryption by a reader, which stays one. */
  method DecryptBeside(s: Session, offset: nat, input: array<byte>, size: nat)
    returns (code: Code, output: array?<byte>)
    requires Reader(s) && size <= input.Length
    modifies s`transaction, s`slots, s`owners, s`log, s.db
    ensures Reader(s) && s.db.committed == old(s.db.committed)
    ensures output == null || fresh(output)
    ensures code == Ok && size > 0 ==>
      Engine.Combined(output, size, input[..size], s.pads, s.keyId, offset)
    ensures old(s.db.Clean()) && s.db.faults == old(s.db.faults) ==>
      && s.db.Clean()
      && (old(Engine.CallStatus(s, s.decrypts, size)) == Ok ==>
            Status(s, old(s.db.committed), s.keyId.value, size, false, offset) == Ok ==> code == Ok)
  {
    hide Session.Valid, Reader, Status, Engine.Combined, Inv;
    Resume(s);
    IsValid(s);
    ghost var before := s.View();
    var n;
    ghost var acts;
    code, output, n, acts := Engine.Decrypt(s, offset, input, size, null, 0);
    StaysReader(s, before, acts);
  }

  lemma IsValid(s: Session)
    requires s.Valid()
    ensures Inv(s.TheVault(), s.View())
  {
  }

  /** A session that has not done anything yet is a reader. */
  lemma NewIsReader(s: Session)
    requires s.Valid() && Initial(s.TheVault(), s.View())
    ensures Reader(s)
  {
  }

  /** Two connections to one file, with nothing committed that the second has not seen. */
  ghost predicate Beside(sender: Session, receiver: Session)
    reads sender, sender.db, receiver, receiver.db
  {
    && sender.Valid() && Reader(receiver) && sender != receiver && sender.db != receiver.db
    && sender.db.keys == receiver.db.keys && sender.pads == receiver.pads
    && sender.db.committed == receiver.db.committed
  }

  /** The connection of a reader sees what the other has committed. */
  method Follow(sender: Session, receiver: Session)
    requires sender.Valid() && Reader(receiver) && sender != receiver && sender.db != receiver.db
    requires sender.db.keys == receiver.db.keys && sender.pads == receiver.pads
    modifies receiver.db`committed, receiver.db`working
    ensures Beside(sender, receiver)
  {
    hide Inv, KeyOk, ReadOnly;
    receiver.db.CatchUp(sender.db.committed);
  }

  /**
   Encryption in one session and decryption in another, on the same keyset at the same time. The text comes back, and
   both may go on: the sender's history has grown by this one range, and the reader is up to date again.
   */
  method RoundTripBeside(sender: Session, receiver: Session, plain: array<byte>, size: nat)
    returns (sent: Code, received: Code, result: array?<byte>)
    requires Beside(sender, receiver) && 0 < size <= plain.Length
    requires sender.keyId.Some? && sender.keyId == receiver.keyId && sender.keyId.value in sender.pads
    modifies sender`transaction, sender`slots, sender`owners, sender`log, sender.db
    modifies receiver`transaction, receiver`slots, receiver`owners, receiver`log, receiver.db
    ensures sent == Ok && received == Ok ==>
      result != null && size <= result.Length && result[..size] == old(plain[..size])
    ensures if sent == Ok then |sender.log| == |old(sender.log)| + 1 && old(sender.log) <= sender.log
            else sender.log == old(sender.log)
    ensures old(sender.db.Clean()) && sender.db.faults == old(sender.db.faults)
            && old(Engine.CallStatus(sender, sender.encrypts, size)) == Ok
            && Room(sender.db.keys, old(sender.db.committed), sender.db.maxAttached, sender.keyId.value, size) ==>
            sent == Ok && sender.db.Clean()
    ensures sent == Ok && old(receiver.db.Clean()) && receiver.db.faults == old(receiver.db.faults)
            && old(Engine.CallStatus(receiver, receiver.decrypts, size)) == Ok
            && CanRead(receiver.db.keys, receiver.db.maxAttached, receiver.keyId.value, size) ==>
            received == Ok && receiver.db.Clean()
    ensures Beside(sender, receiver)
  {
    hide Session.Valid, Reader, Status, MayEncrypt, Grantable, Uncached, GrownBy;
    result, received := null, StoreFailure;
    ghost var text, pad := plain[..size], sender.pads[sender.keyId.value];
    RoomGrants(sender, sender.db.committed, sender.keyId.value, size);
    var offset, cipher, n;
    ghost var acts;
    sent, offset, cipher, n, acts := Engine.Encrypt(sender, 0, plain, size, null, 0);
    Follow(sender, receiver);
    if sent == Ok {
      MayRead(receiver, size, offset);
      received, result := DecryptBeside(receiver, offset, cipher, size);
      XorSeqCancels(text, pad[offset..offset + size]);
    }
  }

  /** A reader is never refused a range inside the pad of a key it may read. */
  lemma MayRead(s: Session, size: nat, offset: nat)
    requires Reader(s) && s.keyId.Some? && s.keyId.value in s.pads
    requires 0 < size && offset + size <= |s.pads[s.keyId.value]|
    ensures s.mounted && size <= INT_MAX && CanRead(s.db.keys, s.db.maxAttached, s.keyId.value, size) ==>
      Status(s, s.db.committed, s.keyId.value, size, false, offset) == Ok
  {
    var info := s.db.keys[s.keyId.value];
    if CanRead(s.db.keys, s.db.maxAttached, s.keyId.value, size) && info.chunkSize != 0 {
      FewChunks(info.chunkSize, Locate(info.chunkSize, offset), size, s.db.maxAttached);
    }
  }
}
