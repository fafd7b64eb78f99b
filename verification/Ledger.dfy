/**
 The pad ledger: one session's allocations, cache entries, hand-outs and give-backs as a state machine.

 Every byte of a key below its recorded position has exactly one owner. The engine's methods are shown
 elsewhere to perform only runs of this machine; here every run is shown to use each pad byte once.
 */
module Ledger {
  import opened Bytes
  import opened Chunks
  import opened Keys

  /** One slot of the key cache. */
  datatype CachedKey = CachedKey(inUse: bool, keyId: KeyId, isEncrypt: bool, base: nat, size: nat,
                                 workSize: nat, workOffset: nat, bytes: seq<byte>)

  const FREE_SLOT := CachedKey(false, "", false, 0, 0, 0, 0, [])

  /** Who holds a pad byte: nobody in this run, the n-th hand-out, a cache slot, or nobody ever again. */
  datatype Owner = Prior | Handed(n: nat) | Held(slot: nat) | Burned

  /** A range of pad bytes handed out by one successful encryption. */
  datatype Grant = Grant(keyId: KeyId, lo: nat, hi: nat)

  /** The keys of a keyset and the pads behind them. */
  datatype Vault = Vault(keys: map<KeyId, KeyInfo>, pads: map<KeyId, seq<byte>>)

  datatype Machine = Machine(recs: map<KeyId, Record>, slots: seq<CachedKey>,
                             owners: map<KeyId, seq<Owner>>, log: seq<Grant>)

  datatype Action =
    | Give(keyId: KeyId, size: nat)                        // allocate and hand out
    | Lose(keyId: KeyId, size: nat)                        // allocate, then fail before returning
    | Fill(slot: nat, keyId: KeyId, size: nat)             // allocate into an encrypt slot
    | Load(slot: nat, keyId: KeyId, offset: nat, size: nat)// read into a decrypt slot
    | Serve(slot: nat, size: nat)                          // hand out the front of an encrypt slot
    | Drop(slot: nat)                                      // free a slot, burning what it still holds
    | GiveBack(slot: nat)                                  // free a slot, moving the position back
    | Restart(slots: nat)                                  // lose the cache; resume from the record

  function Repeat<T>(x: T, n: nat): (s: seq<T>)
    ensures |s| == n && forall i :: 0 <= i < n ==> s[i] == x
  {
    seq(n, _ => x)
  }

  /** o with positions [lo, hi) now owned by w. */
  function Reown(o: seq<Owner>, lo: nat, hi: nat, w: Owner): (r: seq<Owner>)
    ensures |r| == |o|
    ensures forall i :: 0 <= i < |o| ==> r[i] == if lo <= i < hi then w else o[i]
  {
    seq(|o|, i requires 0 <= i < |o| => if lo <= i < hi then w else o[i])
  }

  /** Every held byte becomes burned. */
  function BurnHeld(o: seq<Owner>): (r: seq<Owner>)
    ensures |r| == |o|
    ensures forall i :: 0 <= i < |o| ==> r[i] == if o[i].Held? then Burned else o[i]
  {
    seq(|o|, i requires 0 <= i < |o| => if o[i].Held? then Burned else o[i])
  }

  predicate Live(slot: CachedKey)
  {
    slot.inUse && slot.isEncrypt
  }

  function TailStart(slot: CachedKey): nat
  {
    slot.base + slot.workOffset
  }

  function TailEnd(slot: CachedKey): nat
  {
    TailStart(slot) + slot.workSize
  }

  /** Room for `size` more bytes of a key that may be used to encrypt. */
  predicate CanAllocate(v: Vault, m: Machine, keyId: KeyId, size: nat)
  {
    && keyId in m.recs && keyId in v.keys && keyId in v.pads && keyId in m.owners
    && size > 0 && m.recs[keyId].used + size <= |v.pads[keyId]|
    && Usable(v.keys[keyId], true) && Plannable(v.keys[keyId].chunkSize, m.recs[keyId].at)
  }

  function Allocate(v: Vault, m: Machine, keyId: KeyId, size: nat, w: Owner): Machine
    requires CanAllocate(v, m, keyId, size)
  {
    m.(recs := m.recs[keyId := Advanced(v.keys[keyId], m.recs[keyId], size)],
       owners := m.owners[keyId := m.owners[keyId] + Repeat(w, size)])
  }

  function Serving(slot: CachedKey, size: nat): CachedKey
    requires size <= slot.workSize
  {
    if size == slot.workSize then FREE_SLOT
    else slot.(workSize := slot.workSize - size, workOffset := slot.workOffset + size)
  }

  predicate LiveSlot(m: Machine, slot: nat)
  {
    slot < |m.slots| && Live(m.slots[slot]) && m.slots[slot].keyId in m.recs && m.slots[slot].keyId in m.owners
  }

  predicate Enabled(v: Vault, m: Machine, a: Action)
  {
    match a
    case Give(k, size) => CanAllocate(v, m, k, size)
    case Lose(k, size) => CanAllocate(v, m, k, size)
    case Fill(s, k, size) => s < |m.slots| && !m.slots[s].inUse && CanAllocate(v, m, k, size)
    case Load(s, k, offset, size) =>
      && s < |m.slots| && !m.slots[s].inUse && k in v.pads && k in m.recs && offset + size <= |v.pads[k]|
      && k in v.keys && Usable(v.keys[k], false)
    case Serve(s, size) => LiveSlot(m, s) && 0 < size <= m.slots[s].workSize
    case Drop(s) => s < |m.slots| && (Live(m.slots[s]) ==> LiveSlot(m, s))
    case GiveBack(s) =>
      && LiveSlot(m, s) && m.slots[s].keyId in v.keys
      && TailEnd(m.slots[s]) == Top(v.keys[m.slots[s].keyId], m.recs[m.slots[s].keyId])
      && m.slots[s].workSize <= m.recs[m.slots[s].keyId].used
      && TailStart(m.slots[s]) <= |m.owners[m.slots[s].keyId]|
    case Restart(n) => true
  }

  function Next(v: Vault, m: Machine, a: Action): Machine
    requires Enabled(v, m, a)
  {
    match a
    case Give(k, size) =>
      var lo := m.recs[k].used;
      Allocate(v, m, k, size, Handed(|m.log|)).(log := m.log + [Grant(k, lo, lo + size)])
    case Lose(k, size) => Allocate(v, m, k, size, Burned)
    case Fill(s, k, size) =>
      var lo := m.recs[k].used;
      var entry := CachedKey(true, k, true, lo, size, size, 0, v.pads[k][lo..lo + size]);
      Allocate(v, m, k, size, Held(s)).(slots := m.slots[s := entry])
    case Load(s, k, offset, size) =>
      m.(slots := m.slots[s := CachedKey(true, k, false, offset, size, size, 0, v.pads[k][offset..offset + size])])
    case Serve(s, size) =>
      var slot := m.slots[s];
      var lo := TailStart(slot);
      m.(slots := m.slots[s := Serving(slot, size)],
         owners := m.owners[slot.keyId := Reown(m.owners[slot.keyId], lo, lo + size, Handed(|m.log|))],
         log := m.log + [Grant(slot.keyId, lo, lo + size)])
    case Drop(s) =>
      var slot := m.slots[s];
      if Live(slot) then
        m.(slots := m.slots[s := FREE_SLOT],
           owners := m.owners[slot.keyId := Reown(m.owners[slot.keyId], TailStart(slot), TailEnd(slot), Burned)])
      else m.(slots := m.slots[s := FREE_SLOT])
    case GiveBack(s) =>
      var slot := m.slots[s];
      var k := slot.keyId;
      m.(slots := m.slots[s := FREE_SLOT],
         recs := m.recs[k := Rewound(v.keys[k], m.recs[k], TailStart(slot), slot.workSize)],
         owners := m.owners[k := m.owners[k][..TailStart(slot)]])
    case Restart(n) =>
      m.(slots := Repeat(FREE_SLOT, n), owners := map k | k in m.owners :: BurnHeld(m.owners[k]))
  }

  // ---------------------------------------------------------------------------
  // The invariant.

  /** Positions [lo, hi) of o belong to w and nothing else does. */
  ghost predicate Owns(o: seq<Owner>, lo: nat, hi: nat, w: Owner)
  {
    lo < hi <= |o| && forall i :: 0 <= i < |o| ==> (o[i] == w <==> lo <= i < hi)
  }

  ghost predicate OwnsNothing(o: seq<Owner>, w: Owner)
  {
    forall i :: 0 <= i < |o| ==> o[i] != w
  }

  /** A slot caches its own range of its key's pad; only the tail of an encrypt slot is still unused. */
  ghost predicate SlotOk(v: Vault, slot: CachedKey)
  {
    if !slot.inUse then slot == FREE_SLOT
    else
      && slot.keyId in v.pads && slot.keyId in v.keys && Usable(v.keys[slot.keyId], slot.isEncrypt)
      && slot.workOffset + slot.workSize == slot.size
      && slot.base + slot.size <= |v.pads[slot.keyId]|
      && slot.bytes == v.pads[slot.keyId][slot.base..slot.base + slot.size]
      && (slot.isEncrypt ==> 0 < slot.workSize)
      && (!slot.isEncrypt ==> slot.workOffset == 0)
  }

  ghost predicate KeysOk(v: Vault, m: Machine)
  {
    && m.recs.Keys == m.owners.Keys == v.pads.Keys == v.keys.Keys
    && (forall k :: k in m.recs ==> KeyOk(v.keys[k], v.pads[k], m.recs[k]))
    && (forall k :: k in m.recs ==> |m.owners[k]| == m.recs[k].used)
  }

  /** What owner x has of o: exactly the range [lo, hi), or nothing. */
  ghost predicate Share(o: seq<Owner>, some: bool, lo: nat, hi: nat, x: Owner)
  {
    if some then Owns(o, lo, hi, x) else OwnsNothing(o, x)
  }

  predicate GrantOf(m: Machine, k: KeyId, n: nat)
  {
    n < |m.log| && m.log[n].keyId == k
  }

  predicate SlotOf(m: Machine, k: KeyId, s: nat)
  {
    s < |m.slots| && Live(m.slots[s]) && m.slots[s].keyId == k
  }

  function GrantLo(m: Machine, n: nat): nat { if n < |m.log| then m.log[n].lo else 0 }
  function GrantHi(m: Machine, n: nat): nat { if n < |m.log| then m.log[n].hi else 0 }
  function SlotLo(m: Machine, s: nat): nat { if s < |m.slots| then TailStart(m.slots[s]) else 0 }
  function SlotHi(m: Machine, s: nat): nat { if s < |m.slots| then TailEnd(m.slots[s]) else 0 }

  /** Hand-out n owns exactly its range of key k; slot s owns exactly its unused tail of key k. */
  ghost predicate GrantOwned(m: Machine, k: KeyId, n: nat)
    requires k in m.owners
  {
    Share(m.owners[k], GrantOf(m, k, n), GrantLo(m, n), GrantHi(m, n), Handed(n))
  }

  ghost predicate SlotOwned(m: Machine, k: KeyId, s: nat)
    requires k in m.owners
  {
    Share(m.owners[k], SlotOf(m, k, s), SlotLo(m, s), SlotHi(m, s), Held(s))
  }

  ghost predicate Owned(m: Machine, k: KeyId)
    requires k in m.owners
  {
    && (forall n: nat :: GrantOwned(m, k, n))
    && (forall s: nat :: SlotOwned(m, k, s))
  }

  ghost predicate Inv(v: Vault, m: Machine)
  {
    && KeysOk(v, m)
    && (forall s :: 0 <= s < |m.slots| ==> SlotOk(v, m.slots[s]))
    && (forall n :: 0 <= n < |m.log| ==> m.log[n].keyId in m.recs && Usable(v.keys[m.log[n].keyId], true))
    && (forall k :: k in m.owners ==> Owned(m, k))
  }

  /** A fresh session over a keyset: nothing handed out, empty cache, all used bytes from before. */
  ghost predicate Initial(v: Vault, m: Machine)
  {
    && KeysOk(v, m)
    && (forall s :: 0 <= s < |m.slots| ==> m.slots[s] == FREE_SLOT)
    && m.log == []
    && (forall k :: k in m.owners ==> m.owners[k] == Repeat(Prior, m.recs[k].used))
  }

  lemma InitialInv(v: Vault, m: Machine)
    requires Initial(v, m)
    ensures Inv(v, m)
  {
  }
}
