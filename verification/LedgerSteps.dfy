/** Every action of the pad ledger keeps its invariant. */
module LedgerSteps {
  import opened Keys
  import opened Ledger

  lemma AppendShare(o: seq<Owner>, w: Owner, size: nat, some: bool, lo: nat, hi: nat, x: Owner)
    requires Share(o, some, lo, hi, x) && x != w
    ensures Share(o + Repeat(w, size), some, lo, hi, x)
  {
  }

  lemma AppendNew(o: seq<Owner>, w: Owner, size: nat)
    requires OwnsNothing(o, w) && size > 0
    ensures Owns(o + Repeat(w, size), |o|, |o| + size, w)
  {
  }

  /** Passing on a piece of u's range to w leaves everybody else's share alone. */
  lemma ReownShare(o: seq<Owner>, a: nat, b: nat, c: nat, d: nat, u: Owner, w: Owner,
                   some: bool, lo: nat, hi: nat, x: Owner)
    requires Owns(o, c, d, u) && c <= a <= b <= d && x != u && x != w
    requires Share(o, some, lo, hi, x)
    ensures Share(Reown(o, a, b, w), some, lo, hi, x)
  {
    var r := Reown(o, a, b, w);
    forall i | 0 <= i < |o|
      ensures r[i] == x <==> o[i] == x
    {
      assert a <= i < b ==> o[i] == u && r[i] == w;
    }
  }

  /** u keeps what lies behind the piece passed on. */
  lemma ReownRest(o: seq<Owner>, c: nat, b: nat, d: nat, u: Owner, w: Owner)
    requires Owns(o, c, d, u) && c <= b <= d && u != w
    ensures Share(Reown(o, c, b, w), b < d, b, d, u)
  {
  }

  lemma ReownNew(o: seq<Owner>, a: nat, b: nat, w: Owner)
    requires OwnsNothing(o, w) && a < b <= |o|
    ensures Owns(Reown(o, a, b, w), a, b, w)
  {
  }

  /** Cutting off u's range at the top leaves everybody else's share alone. */
  lemma CutShare(o: seq<Owner>, c: nat, u: Owner, some: bool, lo: nat, hi: nat, x: Owner)
    requires Owns(o, c, |o|, u) && x != u && Share(o, some, lo, hi, x)
    ensures Share(o[..c], some, lo, hi, x)
  {
    if some {
      assert o[hi - 1] == x;
      assert forall i :: 0 <= i < c ==> o[..c][i] == o[i];
    }
  }

  lemma BurnShare(o: seq<Owner>, some: bool, lo: nat, hi: nat, x: Owner)
    requires Share(o, some, lo, hi, x) && x.Handed?
    ensures Share(BurnHeld(o), some, lo, hi, x)
  {
  }

  /** Owner x has the same range of key k before and after a step. */
  ghost predicate Same(m: Machine, m': Machine, k: KeyId, x: Owner)
  {
    match x
    case Handed(n) =>
      (GrantOf(m', k, n) <==> GrantOf(m, k, n))
      && (GrantOf(m, k, n) ==> GrantLo(m', n) == GrantLo(m, n) && GrantHi(m', n) == GrantHi(m, n))
    case Held(s) =>
      (SlotOf(m', k, s) <==> SlotOf(m, k, s))
      && (SlotOf(m, k, s) ==> SlotLo(m', s) == SlotLo(m, s) && SlotHi(m', s) == SlotHi(m, s))
    case _ => true
  }

  /** Owner x has exactly its range of key k. */
  ghost predicate Settled(m: Machine, k: KeyId, x: Owner)
    requires k in m.owners
  {
    match x
    case Handed(n) => GrantOwned(m, k, n)
    case Held(s) => SlotOwned(m, k, s)
    case _ => true
  }

  lemma SettledOwned(m: Machine, k: KeyId)
    requires k in m.owners && forall x :: Settled(m, k, x)
    ensures Owned(m, k)
  {
    forall n: nat ensures GrantOwned(m, k, n) { assert Settled(m, k, Handed(n)); }
    forall s: nat ensures SlotOwned(m, k, s) { assert Settled(m, k, Held(s)); }
  }

  lemma OwnedSettled(m: Machine, k: KeyId, x: Owner)
    requires k in m.owners && Owned(m, k)
    ensures Settled(m, k, x)
  {
    match x
    case Handed(n) => assert GrantOwned(m, k, n);
    case Held(s) => assert SlotOwned(m, k, s);
    case _ =>
  }

  lemma Untouched(m: Machine, m': Machine, k: KeyId)
    requires k in m.owners && k in m'.owners && m'.owners[k] == m.owners[k] && Owned(m, k)
    requires forall x :: Same(m, m', k, x)
    ensures Owned(m', k)
  {
    forall x ensures Settled(m', k, x) {
      OwnedSettled(m, k, x);
      assert Same(m, m', k, x);
    }
    SettledOwned(m', k);
  }

  /** Appending `size` bytes for w, which had nothing, settles everybody. */
  lemma Appended(m: Machine, m': Machine, k: KeyId, size: nat, w: Owner)
    requires k in m.owners && k in m'.owners && Owned(m, k) && size > 0
    requires m'.owners[k] == m.owners[k] + Repeat(w, size)
    requires forall x :: x != w ==> Same(m, m', k, x)
    requires w.Handed? ==>
      && !GrantOf(m, k, w.n) && GrantOf(m', k, w.n)
      && GrantLo(m', w.n) == |m.owners[k]| && GrantHi(m', w.n) == |m.owners[k]| + size
    requires w.Held? ==>
      && !SlotOf(m, k, w.slot) && SlotOf(m', k, w.slot)
      && SlotLo(m', w.slot) == |m.owners[k]| && SlotHi(m', w.slot) == |m.owners[k]| + size
    ensures Owned(m', k)
  {
    var o := m.owners[k];
    forall x ensures Settled(m', k, x) {
      OwnedSettled(m, k, x);
      if x == w {
        if w.Handed? || w.Held? {
          AppendNew(o, w, size);
        }
      } else {
        assert Same(m, m', k, x);
        match x
        case Handed(n) => AppendShare(o, w, size, GrantOf(m, k, n), GrantLo(m, n), GrantHi(m, n), x);
        case Held(s) => AppendShare(o, w, size, SlotOf(m, k, s), SlotLo(m, s), SlotHi(m, s), x);
        case _ =>
      }
    }
    SettledOwned(m', k);
  }

  /** Passing the front of slot s's tail on to w, which had nothing, settles everybody. */
  lemma PassedOn(m: Machine, m': Machine, k: KeyId, s: nat, size: nat, w: Owner)
    requires k in m.owners && k in m'.owners && Owned(m, k)
    requires SlotOf(m, k, s) && 0 < size <= SlotHi(m, s) - SlotLo(m, s) && w != Held(s)
    requires m'.owners[k] == Reown(m.owners[k], SlotLo(m, s), SlotLo(m, s) + size, w)
    requires forall x :: x != w && x != Held(s) ==> Same(m, m', k, x)
    requires SlotOf(m', k, s) <==> SlotLo(m, s) + size < SlotHi(m, s)
    requires SlotOf(m', k, s) ==> SlotLo(m', s) == SlotLo(m, s) + size && SlotHi(m', s) == SlotHi(m, s)
    requires !w.Held?
    requires w.Handed? ==>
      && !GrantOf(m, k, w.n) && GrantOf(m', k, w.n)
      && GrantLo(m', w.n) == SlotLo(m, s) && GrantHi(m', w.n) == SlotLo(m, s) + size
    ensures Owned(m', k)
  {
    var o, c, d := m.owners[k], SlotLo(m, s), SlotHi(m, s);
    OwnedSettled(m, k, Held(s));
    forall x ensures Settled(m', k, x) {
      OwnedSettled(m, k, x);
      if x == w {
        if w.Handed? {
          ReownNew(o, c, c + size, w);
        }
      } else if x == Held(s) {
        ReownRest(o, c, c + size, d, x, w);
      } else {
        assert Same(m, m', k, x);
        match x
        case Handed(n) => ReownShare(o, c, c + size, c, d, Held(s), w, GrantOf(m, k, n), GrantLo(m, n), GrantHi(m, n), x);
        case Held(s') => ReownShare(o, c, c + size, c, d, Held(s), w, SlotOf(m, k, s'), SlotLo(m, s'), SlotHi(m, s'), x);
        case _ =>
      }
    }
    SettledOwned(m', k);
  }

  /** Cutting slot s's tail off the top settles everybody. */
  lemma CutOff(m: Machine, m': Machine, k: KeyId, s: nat)
    requires k in m.owners && k in m'.owners && Owned(m, k)
    requires SlotOf(m, k, s) && !SlotOf(m', k, s)
    requires SlotLo(m, s) <= |m.owners[k]| == SlotHi(m, s)
    requires m'.owners[k] == m.owners[k][..SlotLo(m, s)]
    requires forall x :: x != Held(s) ==> Same(m, m', k, x)
    ensures Owned(m', k)
  {
    var o, c := m.owners[k], SlotLo(m, s);
    OwnedSettled(m, k, Held(s));
    forall x ensures Settled(m', k, x) {
      OwnedSettled(m, k, x);
      if x == Held(s) {
        assert OwnsNothing(o[..c], x);
      } else {
        assert Same(m, m', k, x);
        match x
        case Handed(n) => CutShare(o, c, Held(s), GrantOf(m, k, n), GrantLo(m, n), GrantHi(m, n), x);
        case Held(s') => CutShare(o, c, Held(s), SlotOf(m, k, s'), SlotLo(m, s'), SlotHi(m, s'), x);
        case _ =>
      }
    }
    SettledOwned(m', k);
  }
}
