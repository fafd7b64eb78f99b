/** Runs of the pad ledger: single use, sound give-back, and conservation of the pad. */
module LedgerRuns {
  import opened Chunks
  import opened Keys
  import opened Ledger
  import opened LedgerSteps

  // ---------------------------------------------------------------------------
  // One action.

  /** Replacing one key's record by a consistent one, with as many owners, keeps all keys consistent. */
  lemma RecordReplaced(v: Vault, m: Machine, m': Machine, k: KeyId, rec: Record)
    requires KeysOk(v, m) && k in m.recs
    requires m'.recs == m.recs[k := rec] && KeyOk(v.keys[k], v.pads[k], rec)
    requires m'.owners.Keys == m.owners.Keys && |m'.owners[k]| == rec.used
    requires forall j :: j in m.owners && j != k ==> |m'.owners[j]| == |m.owners[j]|
    ensures KeysOk(v, m')
  {
    hide KeyOk;
    assert m'.recs.Keys == m.recs.Keys;
    forall j | j in m'.recs
      ensures KeyOk(v.keys[j], v.pads[j], m'.recs[j]) && |m'.owners[j]| == m'.recs[j].used
    {
      if j != k {
        assert KeyOk(v.keys[j], v.pads[j], m.recs[j]);
      }
    }
  }

  lemma AllocateKeys(v: Vault, m: Machine, m': Machine, k: KeyId, size: nat)
    requires KeysOk(v, m) && CanAllocate(v, m, k, size)
    requires m'.recs == m.recs[k := Advanced(v.keys[k], m.recs[k], size)]
    requires m'.owners.Keys == m.owners.Keys && |m'.owners[k]| == |m.owners[k]| + size
    requires forall j :: j in m.owners && j != k ==> |m'.owners[j]| == |m.owners[j]|
    ensures KeysOk(v, m')
  {
    AdvancedOk(v.keys[k], v.pads[k], m.recs[k], size);
    RecordReplaced(v, m, m', k, Advanced(v.keys[k], m.recs[k], size));
  }

  lemma GiveBackKeys(v: Vault, m: Machine, s: nat)
    requires KeysOk(v, m) && Enabled(v, m, GiveBack(s))
    ensures KeysOk(v, Next(v, m, GiveBack(s)))
  {
    var slot, k := m.slots[s], m.slots[s].keyId;
    RewoundOk(v.keys[k], v.pads[k], m.recs[k], TailStart(slot), slot.workSize);
    RecordReplaced(v, m, Next(v, m, GiveBack(s)), k, Rewound(v.keys[k], m.recs[k], TailStart(slot), slot.workSize));
  }

  /** Actions that leave the records alone and every key with as many owners. */
  lemma RecordsKept(v: Vault, m: Machine, m': Machine)
    requires KeysOk(v, m) && m'.recs == m.recs && m'.owners.Keys == m.owners.Keys
    requires forall j :: j in m.owners ==> |m'.owners[j]| == |m.owners[j]|
    ensures KeysOk(v, m')
  {
  }

  lemma GiveOwned(v: Vault, m: Machine, k: KeyId, size: nat)
    requires Inv(v, m) && Enabled(v, m, Give(k, size))
    ensures forall j :: j in m.owners ==> Owned(Next(v, m, Give(k, size)), j)
  {
    var m' := Next(v, m, Give(k, size));
    forall j | j in m.owners
      ensures Owned(m', j)
    {
      if j == k {
        Appended(m, m', k, size, Handed(|m.log|));
      } else {
        Untouched(m, m', j);
      }
    }
  }

  lemma LoseOwned(v: Vault, m: Machine, k: KeyId, size: nat)
    requires Inv(v, m) && Enabled(v, m, Lose(k, size))
    ensures forall j :: j in m.owners ==> Owned(Next(v, m, Lose(k, size)), j)
  {
    var m' := Next(v, m, Lose(k, size));
    forall j | j in m.owners
      ensures Owned(m', j)
    {
      if j == k {
        Appended(m, m', k, size, Burned);
      } else {
        Untouched(m, m', j);
      }
    }
  }

  lemma FillOwned(v: Vault, m: Machine, s: nat, k: KeyId, size: nat)
    requires Inv(v, m) && Enabled(v, m, Fill(s, k, size))
    ensures forall j :: j in m.owners ==> Owned(Next(v, m, Fill(s, k, size)), j)
  {
    var m' := Next(v, m, Fill(s, k, size));
    forall j | j in m.owners
      ensures Owned(m', j)
    {
      if j == k {
        Appended(m, m', k, size, Held(s));
      } else {
        Untouched(m, m', j);
      }
    }
  }

  lemma ServeOwned(v: Vault, m: Machine, s: nat, size: nat)
    requires Inv(v, m) && Enabled(v, m, Serve(s, size))
    ensures forall j :: j in m.owners ==> Owned(Next(v, m, Serve(s, size)), j)
  {
    var m' := Next(v, m, Serve(s, size));
    var k := m.slots[s].keyId;
    assert m'.slots == m.slots[s := Serving(m.slots[s], size)];
    forall j | j in m.owners
      ensures Owned(m', j)
    {
      forall x | j != k || (x != Handed(|m.log|) && x != Held(s))
        ensures Same(m, m', j, x)
      {
      }
      if j == k {
        PassedOn(m, m', k, s, size, Handed(|m.log|));
      } else {
        Untouched(m, m', j);
      }
    }
  }

  lemma DropOwned(v: Vault, m: Machine, s: nat)
    requires Inv(v, m) && Enabled(v, m, Drop(s))
    ensures forall j :: j in m.owners ==> Owned(Next(v, m, Drop(s)), j)
  {
    var m' := Next(v, m, Drop(s));
    var k := m.slots[s].keyId;
    assert SlotOk(v, m.slots[s]);
    forall j | j in m.owners
      ensures Owned(m', j)
    {
      if Live(m.slots[s]) && j == k {
        PassedOn(m, m', k, s, m.slots[s].workSize, Burned);
      } else {
        Untouched(m, m', j);
      }
    }
  }

  /**
   Give-back is sound: the slot's unused tail is the topmost allocated range, so cutting it off takes
   nothing from any hand-out or any other slot.
   */
  lemma GiveBackOwned(v: Vault, m: Machine, s: nat)
    requires Inv(v, m) && Enabled(v, m, GiveBack(s))
    ensures forall j :: j in m.owners ==> Owned(Next(v, m, GiveBack(s)), j)
  {
    var m' := Next(v, m, GiveBack(s));
    var k := m.slots[s].keyId;
    assert KeyOk(v.keys[k], v.pads[k], m.recs[k]);
    forall j | j in m.owners
      ensures Owned(m', j)
    {
      if j == k {
        CutOff(m, m', k, s);
      } else {
        Untouched(m, m', j);
      }
    }
  }

  lemma LoadOwned(v: Vault, m: Machine, s: nat, k: KeyId, offset: nat, size: nat)
    requires Inv(v, m) && Enabled(v, m, Load(s, k, offset, size))
    ensures forall j :: j in m.owners ==> Owned(Next(v, m, Load(s, k, offset, size)), j)
  {
    var m' := Next(v, m, Load(s, k, offset, size));
    forall j | j in m.owners
      ensures Owned(m', j)
    {
      Untouched(m, m', j);
    }
  }

  lemma RestartOwned(v: Vault, m: Machine, n: nat)
    requires Inv(v, m)
    ensures forall j :: j in m.owners ==> Owned(Next(v, m, Restart(n)), j)
  {
    var m' := Next(v, m, Restart(n));
    forall j | j in m.owners
      ensures Owned(m', j)
    {
      forall i: nat ensures GrantOwned(m', j, i) {
        assert GrantOwned(m, j, i);
        BurnShare(m.owners[j], GrantOf(m, j, i), GrantLo(m, i), GrantHi(m, i), Handed(i));
      }
      forall s: nat ensures SlotOwned(m', j, s) {
      }
    }
  }

  predicate Allocates(a: Action)
  {
    a.Give? || a.Lose? || a.Fill?
  }

  lemma AllocationOwned(v: Vault, m: Machine, a: Action)
    requires Inv(v, m) && Enabled(v, m, a) && Allocates(a)
    ensures Next(v, m, a).owners.Keys == m.owners.Keys
    ensures forall j :: j in m.owners ==> Owned(Next(v, m, a), j)
  {
    match a
    case Give(k, size) => GiveOwned(v, m, k, size);
    case Lose(k, size) => LoseOwned(v, m, k, size);
    case Fill(s, k, size) => FillOwned(v, m, s, k, size);
  }

  lemma NextOwned(v: Vault, m: Machine, a: Action)
    requires Inv(v, m) && Enabled(v, m, a)
    ensures Next(v, m, a).owners.Keys == m.owners.Keys
    ensures forall j :: j in m.owners ==> Owned(Next(v, m, a), j)
  {
    hide KeyOk, SlotOk, Owned, Advanced, Rewound;
    if Allocates(a) {
      AllocationOwned(v, m, a);
    } else {
      match a
      case Load(s, k, offset, size) => LoadOwned(v, m, s, k, offset, size);
      case Serve(s, size) => ServeOwned(v, m, s, size);
      case Drop(s) => DropOwned(v, m, s);
      case GiveBack(s) => GiveBackOwned(v, m, s);
      case Restart(n) => RestartOwned(v, m, n);
    }
  }

  lemma AllocationKeys(v: Vault, m: Machine, a: Action)
    requires Inv(v, m) && Enabled(v, m, a) && Allocates(a)
    ensures KeysOk(v, Next(v, m, a))
  {
    AllocateKeys(v, m, Next(v, m, a), a.keyId, a.size);
  }

  lemma NextKeys(v: Vault, m: Machine, a: Action)
    requires Inv(v, m) && Enabled(v, m, a)
    ensures KeysOk(v, Next(v, m, a))
  {
    if Allocates(a) {
      AllocationKeys(v, m, a);
    } else if a.GiveBack? {
      GiveBackKeys(v, m, a.slot);
    } else {
      RecordsKept(v, m, Next(v, m, a));
    }
  }

  /** Replacing one slot by a sound one keeps all slots sound. */
  lemma SlotReplaced(v: Vault, m: Machine, m': Machine, s: nat, slot: CachedKey)
    requires forall i :: 0 <= i < |m.slots| ==> SlotOk(v, m.slots[i])
    requires s < |m.slots| && m'.slots == m.slots[s := slot] && SlotOk(v, slot)
    ensures forall i :: 0 <= i < |m'.slots| ==> SlotOk(v, m'.slots[i])
  {
  }

  lemma EmptiedSlots(v: Vault, m: Machine, a: Action)
    requires Inv(v, m) && Enabled(v, m, a) && (a.Drop? || a.GiveBack? || a.Serve?)
    ensures forall s :: 0 <= s < |Next(v, m, a).slots| ==> SlotOk(v, Next(v, m, a).slots[s])
  {
    var m' := Next(v, m, a);
    assert SlotOk(v, m.slots[a.slot]);
    SlotReplaced(v, m, m', a.slot, m'.slots[a.slot]);
  }

  lemma NextSlots(v: Vault, m: Machine, a: Action)
    requires Inv(v, m) && Enabled(v, m, a)
    ensures forall s :: 0 <= s < |Next(v, m, a).slots| ==> SlotOk(v, Next(v, m, a).slots[s])
  {
    var m' := Next(v, m, a);
    if a.Drop? || a.GiveBack? || a.Serve? {
      EmptiedSlots(v, m, a);
    } else if a.Fill? || a.Load? {
      SlotReplaced(v, m, m', a.slot, m'.slots[a.slot]);
    }
  }

  lemma NextLog(v: Vault, m: Machine, a: Action)
    requires Inv(v, m) && Enabled(v, m, a)
    ensures m.log <= Next(v, m, a).log
    ensures forall n :: 0 <= n < |Next(v, m, a).log| ==>
      Next(v, m, a).log[n].keyId in Next(v, m, a).recs && Usable(v.keys[Next(v, m, a).log[n].keyId], true)
  {
    hide KeyOk, Owned, Advanced, Rewound, Global, Locate;
  }

  /** Every action keeps the invariant. */
  lemma NextInv(v: Vault, m: Machine, a: Action)
    requires Inv(v, m) && Enabled(v, m, a)
    ensures Inv(v, Next(v, m, a))
  {
    NextKeys(v, m, a);
    NextSlots(v, m, a);
    NextLog(v, m, a);
    NextOwned(v, m, a);
  }

  // ---------------------------------------------------------------------------
  // Whole runs.

  /** Each action is enabled in the state the previous ones lead to. */
  ghost predicate Run(v: Vault, m: Machine, acts: seq<Action>)
    decreases |acts|
  {
    acts == [] || (Enabled(v, m, acts[0]) && Run(v, Next(v, m, acts[0]), acts[1..]))
  }

  ghost function After(v: Vault, m: Machine, acts: seq<Action>): Machine
    requires Run(v, m, acts)
    decreases |acts|
  {
    if acts == [] then m else After(v, Next(v, m, acts[0]), acts[1..])
  }

  lemma {:induction false} RunInv(v: Vault, m: Machine, acts: seq<Action>)
    requires Inv(v, m) && Run(v, m, acts)
    ensures Inv(v, After(v, m, acts)) && m.log <= After(v, m, acts).log
    decreases |acts|
  {
    if acts != [] {
      NextInv(v, m, acts[0]);
      NextLog(v, m, acts[0]);
      RunInv(v, Next(v, m, acts[0]), acts[1..]);
    }
  }

  lemma {:induction false} RunConcat(v: Vault, m: Machine, first: seq<Action>, second: seq<Action>)
    requires Run(v, m, first) && Run(v, After(v, m, first), second)
    ensures Run(v, m, first + second) && After(v, m, first + second) == After(v, After(v, m, first), second)
    decreases |first|
  {
    if first == [] {
      assert first + second == second;
    } else {
      assert (first + second)[0] == first[0] && (first + second)[1..] == first[1..] + second;
      RunConcat(v, Next(v, m, first[0]), first[1..], second);
    }
  }

  lemma RunOne(v: Vault, m: Machine, a: Action)
    requires Enabled(v, m, a)
    ensures Run(v, m, [a]) && After(v, m, [a]) == Next(v, m, a)
  {
    assert [a][1..] == [];
  }

  lemma InvSlot(v: Vault, m: Machine, s: nat)
    requires Inv(v, m) && s < |m.slots|
    ensures SlotOk(v, m.slots[s]) && (m.slots[s].inUse ==> m.slots[s].keyId in m.recs && m.slots[s].keyId in v.keys)
    ensures Live(m.slots[s]) ==> LiveSlot(m, s)
  {
  }

  /** What a run leaves visible: the persisted records, the cache slots and the hand-outs. */
  ghost predicate Leads(v: Vault, m: Machine, acts: seq<Action>, recs: map<KeyId, Record>,
                        slots: seq<CachedKey>, log: seq<Grant>)
  {
    Run(v, m, acts) && After(v, m, acts).recs == recs && After(v, m, acts).slots == slots && After(v, m, acts).log == log
  }

  /** The single-action runs, one lemma for each action the engine performs. */
  lemma GiveLeads(v: Vault, m: Machine, k: KeyId, size: nat)
    requires CanAllocate(v, m, k, size)
    ensures Leads(v, m, [Give(k, size)], m.recs[k := Advanced(v.keys[k], m.recs[k], size)], m.slots,
                  m.log + [Grant(k, m.recs[k].used, m.recs[k].used + size)])
  {
    RunOne(v, m, Give(k, size));
  }

  lemma LoseLeads(v: Vault, m: Machine, k: KeyId, size: nat)
    requires CanAllocate(v, m, k, size)
    ensures Leads(v, m, [Lose(k, size)], m.recs[k := Advanced(v.keys[k], m.recs[k], size)], m.slots, m.log)
  {
    RunOne(v, m, Lose(k, size));
  }

  function Filled(v: Vault, k: KeyId, encrypt: bool, base: nat, size: nat): CachedKey
    requires k in v.pads && base + size <= |v.pads[k]|
  {
    CachedKey(true, k, encrypt, base, size, size, 0, v.pads[k][base..base + size])
  }

  lemma FillLeads(v: Vault, m: Machine, s: nat, k: KeyId, size: nat)
    requires s < |m.slots| && !m.slots[s].inUse && CanAllocate(v, m, k, size)
    ensures Leads(v, m, [Fill(s, k, size)], m.recs[k := Advanced(v.keys[k], m.recs[k], size)],
                  m.slots[s := Filled(v, k, true, m.recs[k].used, size)], m.log)
  {
    RunOne(v, m, Fill(s, k, size));
  }

  lemma LoadLeads(v: Vault, m: Machine, s: nat, k: KeyId, offset: nat, size: nat)
    requires s < |m.slots| && !m.slots[s].inUse && k in v.pads && k in m.recs && offset + size <= |v.pads[k]|
    requires k in v.keys && Usable(v.keys[k], false)
    ensures Leads(v, m, [Load(s, k, offset, size)], m.recs, m.slots[s := Filled(v, k, false, offset, size)], m.log)
  {
    RunOne(v, m, Load(s, k, offset, size));
  }

  lemma ServeLeads(v: Vault, m: Machine, s: nat, size: nat)
    requires LiveSlot(m, s) && 0 < size <= m.slots[s].workSize
    ensures Leads(v, m, [Serve(s, size)], m.recs, m.slots[s := Serving(m.slots[s], size)],
                  m.log + [Grant(m.slots[s].keyId, TailStart(m.slots[s]), TailStart(m.slots[s]) + size)])
  {
    RunOne(v, m, Serve(s, size));
  }

  lemma DropLeads(v: Vault, m: Machine, s: nat)
    requires Inv(v, m) && s < |m.slots|
    ensures Leads(v, m, [Drop(s)], m.recs, m.slots[s := FREE_SLOT], m.log)
  {
    assert SlotOk(v, m.slots[s]);
    RunOne(v, m, Drop(s));
  }

  /** A live slot whose tail ends at the recorded position can always be given back. */
  lemma GiveBackLeads(v: Vault, m: Machine, s: nat)
    requires Inv(v, m) && s < |m.slots| && Live(m.slots[s]) && m.slots[s].keyId in m.recs
    requires TailEnd(m.slots[s]) == Top(v.keys[m.slots[s].keyId], m.recs[m.slots[s].keyId])
                                 == m.recs[m.slots[s].keyId].used
    ensures var slot := m.slots[s]; var k := slot.keyId;
            Leads(v, m, [GiveBack(s)], m.recs[k := Rewound(v.keys[k], m.recs[k], TailStart(slot), slot.workSize)],
                  m.slots[s := FREE_SLOT], m.log)
  {
    RunOne(v, m, GiveBack(s));
  }

  lemma RestartLeads(v: Vault, m: Machine)
    ensures Leads(v, m, [Restart(0)], m.recs, [], m.log)
  {
    RunOne(v, m, Restart(0));
  }

  /**
   Single use: in every run from a fresh session, whatever mix of hand-outs, cache fills, lost allocations,
   give-backs and restarts it makes, the ranges handed out for a key are pairwise disjoint, lie inside the pad,
   and lie below the recorded position. None is of a key that is revoked or for decrypting only.
   */
  lemma SingleUse(v: Vault, start: Machine, acts: seq<Action>)
    requires Initial(v, start) && Run(v, start, acts)
    ensures var m := After(v, start, acts);
      && (forall p, q :: 0 <= p < q < |m.log| && m.log[p].keyId == m.log[q].keyId ==>
            m.log[p].hi <= m.log[q].lo || m.log[q].hi <= m.log[p].lo)
      && (forall n :: 0 <= n < |m.log| ==>
            && m.log[n].keyId in m.recs && m.log[n].keyId in v.pads && m.log[n].keyId in v.keys
            && m.log[n].lo < m.log[n].hi <= Top(v.keys[m.log[n].keyId], m.recs[m.log[n].keyId])
                                         <= |v.pads[m.log[n].keyId]|
            && !v.keys[m.log[n].keyId].isRevoked && v.keys[m.log[n].keyId].isEncrypt)
  {
    InitialInv(v, start);
    RunInv(v, start, acts);
    var m := After(v, start, acts);
    forall n | 0 <= n < |m.log|
      ensures m.log[n].keyId in m.recs && m.log[n].keyId in v.pads && m.log[n].keyId in v.keys
      ensures m.log[n].lo < m.log[n].hi <= Top(v.keys[m.log[n].keyId], m.recs[m.log[n].keyId])
                                         <= |v.pads[m.log[n].keyId]|
      ensures !v.keys[m.log[n].keyId].isRevoked && v.keys[m.log[n].keyId].isEncrypt
    {
      GrantInside(v, m, n);
    }
    forall p, q | 0 <= p < q < |m.log| && m.log[p].keyId == m.log[q].keyId
      ensures m.log[p].hi <= m.log[q].lo || m.log[q].hi <= m.log[p].lo
    {
      GrantsApart(v, m, p, q);
    }
  }

  lemma GrantInside(v: Vault, m: Machine, n: nat)
    requires Inv(v, m) && n < |m.log|
    ensures var k := m.log[n].keyId;
      && k in m.recs && k in v.pads && k in v.keys
      && m.log[n].lo < m.log[n].hi <= Top(v.keys[k], m.recs[k]) <= |v.pads[k]|
      && !v.keys[k].isRevoked && v.keys[k].isEncrypt
  {
    var k := m.log[n].keyId;
    assert KeyOk(v.keys[k], v.pads[k], m.recs[k]);
    assert Owned(m, k) && GrantOwned(m, k, n);
  }

  lemma GrantsApart(v: Vault, m: Machine, p: nat, q: nat)
    requires Inv(v, m) && p < q < |m.log| && m.log[p].keyId == m.log[q].keyId
    ensures m.log[p].hi <= m.log[q].lo || m.log[q].hi <= m.log[p].lo
  {
    var k := m.log[p].keyId;
    assert Owned(m, k) && GrantOwned(m, k, p) && GrantOwned(m, k, q);
    var i := if m.log[p].lo <= m.log[q].lo then m.log[q].lo else m.log[p].lo;
    assert i < |m.owners[k]| && m.log[p].lo <= i < m.log[p].hi ==> m.owners[k][i] == Handed(p);
  }

  predicate InGrant(m: Machine, k: KeyId, n: nat, i: nat)
  {
    GrantOf(m, k, n) && m.log[n].lo <= i < m.log[n].hi
  }

  predicate InTail(m: Machine, k: KeyId, s: nat, i: nat)
  {
    SlotOf(m, k, s) && TailStart(m.slots[s]) <= i < TailEnd(m.slots[s])
  }

  /**
   Byte i of key k is in exactly one class: handed out by exactly one grant, in the unused tail of exactly one
   live encrypt slot, or in neither (burned, or used before the run).
   */
  ghost predicate InOneClass(m: Machine, k: KeyId, i: nat)
    requires k in m.owners && i < |m.owners[k]|
  {
    match m.owners[k][i]
    case Handed(n) => && InGrant(m, k, n, i)
                      && (forall n': nat :: InGrant(m, k, n', i) ==> n' == n)
                      && (forall s: nat :: !InTail(m, k, s, i))
    case Held(s) => && InTail(m, k, s, i)
                    && (forall s': nat :: InTail(m, k, s', i) ==> s' == s)
                    && (forall n: nat :: !InGrant(m, k, n, i))
    case _ => && (forall n: nat :: !InGrant(m, k, n, i))
              && (forall s: nat :: !InTail(m, k, s, i))
  }

  /**
   Conservation of the pad: in every reachable state the used-bytes counter equals the recorded position and the
   number of owned bytes, and each byte below it is in exactly one class.
   */
  lemma Conservation(v: Vault, start: Machine, acts: seq<Action>, k: KeyId)
    requires Initial(v, start) && Run(v, start, acts) && k in v.keys
    ensures var m := After(v, start, acts);
      && k in m.recs && k in m.owners
      && Top(v.keys[k], m.recs[k]) == m.recs[k].used == |m.owners[k]|
      && forall i :: 0 <= i < |m.owners[k]| ==> InOneClass(m, k, i)
  {
    InitialInv(v, start);
    RunInv(v, start, acts);
    InvClasses(v, After(v, start, acts), k);
  }

  lemma InvClasses(v: Vault, m: Machine, k: KeyId)
    requires Inv(v, m) && k in v.keys
    ensures Top(v.keys[k], m.recs[k]) == m.recs[k].used == |m.owners[k]|
    ensures forall i :: 0 <= i < |m.owners[k]| ==> InOneClass(m, k, i)
  {
    assert KeyOk(v.keys[k], v.pads[k], m.recs[k]) && Owned(m, k);
    forall i | 0 <= i < |m.owners[k]|
      ensures InOneClass(m, k, i)
    {
      ClassOfByte(m, k, i);
    }
  }

  lemma ClassOfByte(m: Machine, k: KeyId, i: nat)
    requires k in m.owners && Owned(m, k) && i < |m.owners[k]|
    ensures forall n: nat :: InGrant(m, k, n, i) <==> m.owners[k][i] == Handed(n)
    ensures forall s: nat :: InTail(m, k, s, i) <==> m.owners[k][i] == Held(s)
  {
    forall n: nat
      ensures InGrant(m, k, n, i) <==> m.owners[k][i] == Handed(n)
    {
      assert GrantOwned(m, k, n);
    }
    forall s: nat
      ensures InTail(m, k, s, i) <==> m.owners[k][i] == Held(s)
    {
      assert SlotOwned(m, k, s);
    }
  }

  /**
   Give-back exposes nothing: after it every hand-out of the key and every other slot's tail still lies below
   the new position, which is the start of the returned tail; position minus used-bytes is unchanged, and the
   recorded chunk and offset recombine to the new position.
   */
  lemma GiveBackSound(v: Vault, m: Machine, s: nat)
    requires Inv(v, m) && Enabled(v, m, GiveBack(s))
    ensures var m' := Next(v, m, GiveBack(s)); var k := m.slots[s].keyId; var top := TailStart(m.slots[s]);
      && Inv(v, m')
      && Top(v.keys[k], m'.recs[k]) == top
      && Top(v.keys[k], m'.recs[k]) - m'.recs[k].used == Top(v.keys[k], m.recs[k]) - m.recs[k].used
      && (v.keys[k].chunkSize != 0 ==> m'.recs[k].at.offset < v.keys[k].chunkSize)
      && (forall n: nat :: GrantOf(m', k, n) ==> m'.log[n].hi <= top)
      && (forall t: nat :: SlotOf(m', k, t) ==> TailEnd(m'.slots[t]) <= top)
      && m'.log == m.log
  {
    var m', k, top := Next(v, m, GiveBack(s)), m.slots[s].keyId, TailStart(m.slots[s]);
    NextInv(v, m, GiveBack(s));
    assert KeyOk(v.keys[k], v.pads[k], m.recs[k]);
    RewoundOk(v.keys[k], v.pads[k], m.recs[k], top, m.slots[s].workSize);
    LocateGlobal(v.keys[k].chunkSize, top);
    assert Owned(m', k) && |m'.owners[k]| == top;
    forall n: nat | GrantOf(m', k, n) ensures m'.log[n].hi <= top { assert GrantOwned(m', k, n); }
    forall t: nat | SlotOf(m', k, t) ensures TailEnd(m'.slots[t]) <= top { assert SlotOwned(m', k, t); }
  }
}
