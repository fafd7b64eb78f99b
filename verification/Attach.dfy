/** Attaching and detaching the chunk databases of a plan. */
module Attach {
  import opened Results
  import opened Bytes
  import opened Chunks
  import opened Keys
  import opened Store

  /** The aliases of n consecutive chunks of a key. */
  ghost function Aliases(keyId: KeyId, first: nat, n: nat): (s: set<(KeyId, nat)>)
    ensures |s| == n
    ensures forall c: nat :: (keyId, c) in s <==> first <= c < first + n
  {
    if n == 0 then {}
    else
      var rest := Aliases(keyId, first, n - 1);
      assert (keyId, first + n - 1) !in rest;
      rest + {(keyId, first + n - 1)}
  }

  lemma NoAliases(keyId: KeyId, first: nat)
    ensures Aliases(keyId, first, 0) == {}
  {
  }

  lemma LastAlias(keyId: KeyId, first: nat, n: nat)
    requires n > 0
    ensures (keyId, first + n - 1) in Aliases(keyId, first, n)
    ensures Aliases(keyId, first, n) - {(keyId, first + n - 1)} == Aliases(keyId, first, n - 1)
  {
  }

  /** Plan entries naming consecutive chunks, of which exactly the first n are marked attached. */
  ghost predicate Marked(entries: seq<Entry>, first: nat, n: nat)
  {
    && n <= |entries|
    && (forall i :: 0 <= i < |entries| ==> entries[i].chunkId == first + i)
    && (forall i :: 0 <= i < |entries| ==> (entries[i].attached <==> i < n))
  }

  /** The entry with its attachment mark cleared. */
  function Cleared(e: Entry): Entry
  {
    e.(attached := false)
  }

  /** Two plans that differ at most in their attachment marks. */
  ghost predicate SamePlan(a: seq<Entry>, b: seq<Entry>)
  {
    |a| == |b| && forall i :: 0 <= i < |a| ==> Cleared(a[i]) == Cleared(b[i])
  }

  lemma SamePlanTwice(a: seq<Entry>, b: seq<Entry>, c: seq<Entry>)
    requires SamePlan(a, b) && SamePlan(b, c)
    ensures SamePlan(a, c)
  {
  }

  lemma SamePlanSelf(a: seq<Entry>)
    ensures SamePlan(a, a)
  {
  }

  lemma MarkedAt(entries: seq<Entry>, first: nat, n: nat, i: nat)
    requires Marked(entries, first, n) && i < |entries|
    ensures entries[i].attached <==> i < n
  {
  }

  lemma MarkedBound(entries: seq<Entry>, first: nat, n: nat)
    requires Marked(entries, first, n)
    ensures n <= |entries|
  {
  }

  /** The n chunks from `first` on all exist. */
  predicate ChunksExist(chunks: map<nat, seq<byte>>, first: nat, n: nat)
  {
    n == 0 || (first + n - 1 in chunks && ChunksExist(chunks, first, n - 1))
  }

  lemma {:induction false} ChunkExists(chunks: map<nat, seq<byte>>, first: nat, n: nat, i: nat)
    requires ChunksExist(chunks, first, n) && i < n
    ensures first + i in chunks
  {
    if i < n - 1 {
      ChunkExists(chunks, first, n - 1, i);
    }
  }

  /** Every chunk the plan names exists and the connection has room for all of them. */
  predicate Attachable(info: KeyInfo, maxAttached: nat, first: nat, n: nat)
  {
    n <= maxAttached && ChunksExist(info.chunks, first, n)
  }

  lemma MarkNext(entries: seq<Entry>, first: nat, n: nat)
    requires Marked(entries, first, n) && n < |entries|
    ensures var e := entries[n := entries[n].(attached := true)];
            Marked(e, first, n + 1) && SamePlan(e, entries)
  {
  }

  lemma UnmarkLast(entries: seq<Entry>, first: nat, n: nat)
    requires Marked(entries, first, n) && n > 0
    ensures var e := entries[n - 1 := entries[n - 1].(attached := false)];
            Marked(e, first, n - 1) && SamePlan(e, entries)
  {
  }

  /** Attaches one entry's chunk and marks it. */
  method AttachEntry(db: KeyStore, keyId: KeyId, entries: array<Entry>, count: nat, index: nat, ghost first: nat)
    returns (ok: bool)
    requires index < count <= entries.Length && Marked(entries[..count], first, index) && keyId in db.keys
    modifies entries, db`attached, db`faults
    ensures SamePlan(entries[..count], old(entries[..count]))
    ensures Marked(entries[..count], first, if ok then index + 1 else index)
    ensures old(db.faults) <= db.faults
    ensures ok ==> db.faults == old(db.faults)
    ensures !ok ==> db.attached == old(db.attached)
    ensures ok && old(db.attached) == Aliases(keyId, first, index) ==>
      && db.attached == Aliases(keyId, first, index + 1)
      && index < db.maxAttached && first + index in db.keys[keyId].chunks
    ensures !ok && old(db.attached) == Aliases(keyId, first, index) && !db.open && db.faults == old(db.faults) ==>
      index >= db.maxAttached || first + index !in db.keys[keyId].chunks
  {
    ghost var before := entries[..count];
    ok := db.Attach(keyId, entries[index].chunkId);
    if ok {
      entries[index] := entries[index].(attached := true);
      assert entries[..count] == before[index := before[index].(attached := true)];
      MarkNext(before, first, index);
    } else {
      assert entries[..count] == before;
    }
  }

  /** Detaches one marked entry's chunk; the mark is cleared even if that fails. */
  method DetachEntry(db: KeyStore, keyId: KeyId, entries: array<Entry>, count: nat, index: nat, ghost first: nat)
    returns (ok: bool)
    requires index < count <= entries.Length && Marked(entries[..count], first, index + 1)
    modifies entries, db`attached, db`faults
    ensures SamePlan(entries[..count], old(entries[..count]))
    ensures Marked(entries[..count], first, index)
    ensures old(db.faults) <= db.faults
    ensures ok ==> db.faults == old(db.faults)
    ensures !db.open && (keyId, first + index) in old(db.attached) && db.faults == old(db.faults) ==>
      ok && db.attached == old(db.attached) - {(keyId, first + index)}
  {
    ghost var before := entries[..count];
    ok := db.Detach(keyId, entries[index].chunkId);
    entries[index] := entries[index].(attached := false);
    assert entries[..count] == before[index := before[index].(attached := false)];
    UnmarkLast(before, first, index + 1);
  }

  /**
   Attaches every chunk of the plan, undoing the attachments made so far when one fails.
   Without store faults it succeeds exactly when every chunk can be attached.
   */
  method AttachChunkPlan(db: KeyStore, keyId: KeyId, entries: array<Entry>, count: nat, ghost first: nat) returns (code: Code)
    requires count <= entries.Length && Marked(entries[..count], first, 0)
    requires keyId in db.keys
    modifies entries, db`attached, db`faults
    ensures SamePlan(entries[..count], old(entries[..count]))
    ensures code == Ok || code == StoreFailure
    ensures Marked(entries[..count], first, if code == Ok then count else 0)
    ensures old(db.faults) <= db.faults
    ensures code == Ok ==> db.faults == old(db.faults)
    ensures code == Ok && old(db.attached) == {} ==> db.attached == Aliases(keyId, first, count)
    ensures old(db.Clean()) && db.faults == old(db.faults) ==>
      (code == Ok <==> Attachable(db.keys[keyId], db.maxAttached, first, count))
    ensures old(db.Clean()) && db.faults == old(db.faults) && code != Ok ==> db.attached == {}
  {
    hide Marked, SamePlan;
    var n := AttachPrefix(db, keyId, entries, count, first);
    if n < count {
      if Attachable(db.keys[keyId], db.maxAttached, first, count) {
        ChunkExists(db.keys[keyId].chunks, first, count, n);
      }
      ghost var middle := entries[..count];
      var _ := DetachChunkPlan(db, keyId, entries, count, first, n);
      SamePlanTwice(entries[..count], middle, old(entries[..count]));
      return StoreFailure;
    }
    return Ok;
  }

  /** Attaches chunks in order until one fails; returns how many are attached. */
  method AttachPrefix(db: KeyStore, keyId: KeyId, entries: array<Entry>, count: nat, ghost first: nat) returns (n: nat)
    requires count <= entries.Length && Marked(entries[..count], first, 0) && keyId in db.keys
    modifies entries, db`attached, db`faults
    ensures n <= count
    ensures SamePlan(entries[..count], old(entries[..count]))
    ensures Marked(entries[..count], first, n)
    ensures old(db.faults) <= db.faults
    ensures n == count ==> db.faults == old(db.faults)
    ensures old(db.attached) == {} ==>
      db.attached == Aliases(keyId, first, n) && Attachable(db.keys[keyId], db.maxAttached, first, n)
    ensures n < count && old(db.Clean()) && db.faults == old(db.faults) ==>
      n >= db.maxAttached || first + n !in db.keys[keyId].chunks
  {
    hide SamePlan, Marked, Aliases;
    n := 0;
    SamePlanSelf(entries[..count]);
    NoAliases(keyId, first);
    while n < count
      invariant n <= count
      invariant SamePlan(entries[..count], old(entries[..count]))
      invariant Marked(entries[..count], first, n)
      invariant db.faults == old(db.faults)
      invariant old(db.attached) == {} ==>
        db.attached == Aliases(keyId, first, n) && Attachable(db.keys[keyId], db.maxAttached, first, n)
    {
      ghost var before := entries[..count];
      var ok := AttachEntry(db, keyId, entries, count, n, first);
      SamePlanTwice(entries[..count], before, old(entries[..count]));
      if !ok {
        return;
      }
      n := n + 1;
    }
  }

  /**
   Detaches the marked chunks in reverse order, carrying on past failures. Afterwards no entry is marked,
   so detaching again makes no store call at all.
   */
  method DetachChunkPlan(db: KeyStore, keyId: KeyId, entries: array<Entry>, count: nat, ghost first: nat, ghost n: nat)
    returns (code: Code)
    requires count <= entries.Length && Marked(entries[..count], first, n)
    modifies entries, db`attached, db`faults
    ensures SamePlan(entries[..count], old(entries[..count]))
    ensures code == Ok || code == StoreFailure
    ensures Marked(entries[..count], first, 0)
    ensures old(db.faults) <= db.faults
    ensures code == Ok ==> db.faults == old(db.faults)
    ensures n == 0 ==> code == Ok && db.attached == old(db.attached) && db.faults == old(db.faults)
    ensures !db.open && old(db.attached) == Aliases(keyId, first, n) && db.faults == old(db.faults) ==>
      code == Ok && db.attached == {}
  {
    hide SamePlan, Marked, Aliases;
    NoAliases(keyId, first);
    code := Ok;
    ghost var left := n;
    MarkedBound(entries[..count], first, n);
    SamePlanSelf(entries[..count]);
    var index := count - 1;
    while index >= 0
      invariant -1 <= index < count && left == Min(n, index + 1)
      invariant SamePlan(entries[..count], old(entries[..count]))
      invariant Marked(entries[..count], first, left)
      invariant code == Ok || code == StoreFailure
      invariant old(db.faults) <= db.faults && (code == Ok ==> db.faults == old(db.faults))
      invariant n == 0 ==> code == Ok && db.attached == old(db.attached) && db.faults == old(db.faults)
      invariant !db.open && old(db.attached) == Aliases(keyId, first, n) && db.faults == old(db.faults) ==>
        code == Ok && db.attached == Aliases(keyId, first, left)
    {
      ghost var before := entries[..count];
      MarkedAt(before, first, left, index);
      if entries[index].attached {
        LastAlias(keyId, first, left);
        var ok := DetachEntry(db, keyId, entries, count, index, first);
        if !ok && code == Ok {
          code := StoreFailure;
        }
        SamePlanTwice(entries[..count], before, old(entries[..count]));
        left := left - 1;
      }
      index := index - 1;
    }
  }
}
