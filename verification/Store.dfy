/**
 The keyset database as an abstract store. Any step may fail for reasons of its own; a failed step has no effect.
 `faults` counts such failures, so that a caller can say what happens when there are none.
 */
module Store {
  import opened Results
  import opened Bytes
  import opened Chunks
  import opened Keys

  class KeyStore {
    const keys: map<KeyId, KeyInfo>
    const maxAttached: nat               // how many chunk databases one connection can attach
    var committed: map<KeyId, Record>    // what survives a crash
    var working: map<KeyId, Record>      // what the connection sees
    var open: bool                       // is a transaction open?
    var attached: set<(KeyId, nat)>
    ghost var faults: nat

    constructor (keys: map<KeyId, KeyInfo>, maxAttached: nat, records: map<KeyId, Record>)
      ensures this.keys == keys && this.maxAttached == maxAttached
      ensures committed == records && working == records && !open && attached == {} && faults == 0
    {
      this.keys, this.maxAttached := keys, maxAttached;
      committed, working, open, attached, faults := records, records, false, {}, 0;
    }

    /** No transaction left open and no chunk left attached. */
    predicate Clean()
      reads this
    {
      !open && attached == {}
    }

    /** The connection sees the committed records, except inside a transaction. */
    predicate Settled()
      reads this
    {
      && (!open ==> working == committed)
      && committed.Keys == working.Keys
    }

    method GetKeyInfo(keyId: KeyId) returns (info: Option<KeyInfo>, rec: Record)
      modifies this`faults
      ensures info.Some? ==> keyId in keys && keyId in working && info.value == keys[keyId] && rec == working[keyId]
      ensures info.Some? ==> faults == old(faults)
      ensures info.None? && keyId in keys && keyId in working ==> faults == old(faults) + 1
      ensures old(faults) <= faults
    {
      rec := Record(Position(0, 0), 0);
      var fault: bool := *;
      if keyId !in keys || keyId !in working {
        return None, rec;
      } else if fault {
        faults := faults + 1;
        return None, rec;
      }
      return Some(keys[keyId]), working[keyId];
    }

    method Begin() returns (ok: bool)
      modifies this`open, this`faults
      ensures ok ==> !old(open) && open && faults == old(faults)
      ensures !ok ==> open == old(open)
      ensures !ok && !old(open) ==> faults == old(faults) + 1
      ensures old(faults) <= faults
    {
      var fault: bool := *;
      if open {
        return false;
      } else if fault {
        faults := faults + 1;
        return false;
      }
      open := true;
      return true;
    }

    method Commit() returns (ok: bool)
      modifies this`open, this`committed, this`faults
      ensures ok ==> old(open) && !open && committed == working && faults == old(faults)
      ensures !ok ==> open == old(open) && committed == old(committed)
      ensures !ok && old(open) ==> faults == old(faults) + 1
      ensures old(faults) <= faults
    {
      var fault: bool := *;
      if !open {
        return false;
      } else if fault {
        faults := faults + 1;
        return false;
      }
      committed, open := working, false;
      return true;
    }

    /** Even a rollback may fail; the transaction then stays open. */
    method Rollback() returns (ok: bool)
      modifies this`open, this`working, this`faults
      ensures ok ==> !open && working == committed && faults == old(faults)
      ensures !ok ==> open == old(open) && working == old(working)
      ensures !ok && old(open) ==> faults == old(faults) + 1
      ensures old(faults) <= faults
    {
      var fault: bool := *;
      if !open {
        return false;
      } else if fault {
        faults := faults + 1;
        return false;
      }
      working, open := committed, false;
      return true;
    }

    /** Updates the row of a key inside the open transaction. */
    method SetRecord(keyId: KeyId, rec: Record) returns (ok: bool)
      requires open
      modifies this`working, this`faults
      ensures ok ==> keyId in old(working) && working == old(working)[keyId := rec] && faults == old(faults)
      ensures !ok ==> working == old(working)
      ensures !ok && keyId in old(working) ==> faults == old(faults) + 1
      ensures old(faults) <= faults
    {
      var fault: bool := *;
      if keyId !in working {
        return false;
      } else if fault {
        faults := faults + 1;
        return false;
      }
      working := working[keyId := rec];
      return true;
    }

    predicate CanAttach(keyId: KeyId, chunkId: nat)
      reads this
    {
      && !open
      && keyId in keys && chunkId in keys[keyId].chunks
      && (keyId, chunkId) !in attached && |attached| < maxAttached
    }

    method Attach(keyId: KeyId, chunkId: nat) returns (ok: bool)
      modifies this`attached, this`faults
      ensures ok ==>
        && !open && keyId in keys && chunkId in keys[keyId].chunks
        && (keyId, chunkId) !in old(attached) && |old(attached)| < maxAttached
      ensures ok ==> old(CanAttach(keyId, chunkId)) && attached == old(attached) + {(keyId, chunkId)} && faults == old(faults)
      ensures !ok ==> attached == old(attached)
      ensures !ok && old(CanAttach(keyId, chunkId)) ==> faults == old(faults) + 1
      ensures old(faults) <= faults
    {
      var fault: bool := *;
      if !CanAttach(keyId, chunkId) {
        return false;
      } else if fault {
        faults := faults + 1;
        return false;
      }
      attached := attached + {(keyId, chunkId)};
      return true;
    }

    method Detach(keyId: KeyId, chunkId: nat) returns (ok: bool)
      modifies this`attached, this`faults
      ensures ok ==>
        && !old(open) && (keyId, chunkId) in old(attached)
        && attached == old(attached) - {(keyId, chunkId)} && faults == old(faults)
      ensures !ok ==> attached == old(attached)
      ensures !ok && !old(open) && (keyId, chunkId) in old(attached) ==> faults == old(faults) + 1
      ensures old(faults) <= faults
    {
      var fault: bool := *;
      if open || (keyId, chunkId) !in attached {
        return false;
      } else if fault {
        faults := faults + 1;
        return false;
      }
      attached := attached - {(keyId, chunkId)};
      return true;
    }

    /** Reads one entry of a plan from its attached chunk into out at `cursor`. */
    method ReadBlob(keyId: KeyId, e: Entry, out: array<byte>, cursor: nat) returns (ok: bool)
      requires cursor + e.length <= out.Length
      modifies out, this`faults
      ensures ok ==>
        && (keyId, e.chunkId) in attached && keyId in keys && Readable(keys[keyId].chunks, e)
        && out[..] == old(out[..cursor]) + Piece(keys[keyId].chunks, e) + old(out[cursor + e.length..])
        && faults == old(faults)
      ensures !ok ==> out[..] == old(out[..])
      ensures !ok && (keyId, e.chunkId) in attached && keyId in keys && Readable(keys[keyId].chunks, e) ==>
        faults == old(faults) + 1
      ensures old(faults) <= faults
    {
      var fault: bool := *;
      if (keyId, e.chunkId) !in attached || keyId !in keys || !Readable(keys[keyId].chunks, e) {
        return false;
      } else if fault {
        faults := faults + 1;
        return false;
      }
      var bytes := Piece(keys[keyId].chunks, e);
      forall k | 0 <= k < |bytes| {
        out[cursor + k] := bytes[k];
      }
      return true;
    }

    /** Closes the connection: an open transaction is rolled back and every chunk is detached. */
    method Close() returns (ok: bool)
      modifies this`open, this`working, this`attached, this`faults
      ensures ok ==> Clean() && working == committed && faults == old(faults)
      ensures !ok ==> open == old(open) && working == old(working) && attached == old(attached) && faults == old(faults) + 1
    {
      var fault: bool := *;
      if fault {
        faults := faults + 1;
        return false;
      }
      open, working, attached := false, committed, {};
      return true;
    }

    /** Another connection has committed these records to the same file. A transaction left open keeps what it saw. */
    method CatchUp(records: map<KeyId, Record>)
      modifies this`committed, this`working
      ensures committed == records && working == if open then old(working) else records
    {
      committed := records;
      if !open {
        working := records;
      }
    }

    /** The process dies: an open transaction is undone when the database is opened next, and nothing is attached. */
    method Crash()
      modifies this`open, this`working, this`attached
      ensures Clean() && working == committed
    {
      open, working, attached := false, committed, {};
    }
  }
}
