/** Keys, their recorded positions, and the pads their chunks hold. */
module Keys {
  import opened Results
  import opened Bytes
  import opened Chunks

  type KeyId = string

  /** The row of one key and the chunk table behind it. */
  datatype KeyInfo = KeyInfo(total: nat, chunkSize: nat, isEncrypt: bool, isRevoked: bool, chunks: map<nat, seq<byte>>)

  /** Keys that are revoked serve nobody; some keys are for decrypting only. */
  predicate Usable(info: KeyInfo, encrypt: bool)
  {
    !info.isRevoked && (encrypt ==> info.isEncrypt)
  }

  /** The persisted position of a key: where the next allocation starts, and the used-bytes counter. */
  datatype Record = Record(at: Position, used: nat)

  /** The record after `size` more bytes have been allocated. */
  function Advanced(info: KeyInfo, rec: Record, size: nat): Record
    requires Plannable(info.chunkSize, rec.at)
  {
    Record(PlanEnd(info.chunkSize, rec.at, size), rec.used + size)
  }

  /** The record moved back to global position `to`. */
  function Rewound(info: KeyInfo, rec: Record, to: nat, returned: nat): Record
    requires returned <= rec.used
  {
    Record(if info.chunkSize != 0 then Locate(info.chunkSize, to) else Position(rec.at.chunkId, to),
           rec.used - returned)
  }

  function Top(info: KeyInfo, rec: Record): nat
  {
    Global(info.chunkSize, rec.at)
  }

  /** A key whose chunks hold `pad` and whose record is consistent. */
  ghost predicate KeyOk(info: KeyInfo, pad: seq<byte>, rec: Record)
  {
    && info.total == |pad|
    && Plannable(info.chunkSize, rec.at)
    && Top(info, rec) == rec.used <= |pad|
    && Holds(info.chunks, pad, info.chunkSize, rec.at.chunkId)
    && (forall i :: i in info.chunks ==> |info.chunks[i]| <= INT_MAX)
  }

  /** Allocating keeps a key consistent. */
  lemma AdvancedOk(info: KeyInfo, pad: seq<byte>, rec: Record, size: nat)
    requires KeyOk(info, pad, rec) && rec.used + size <= |pad|
    ensures KeyOk(info, pad, Advanced(info, rec, size))
    ensures Advanced(info, rec, size).used == rec.used + size
  {
    PlanEndsAt(info.chunkSize, rec.at, size);
  }

  /** Moving back keeps a key consistent and the distance between position and used-bytes constant. */
  lemma RewoundOk(info: KeyInfo, pad: seq<byte>, rec: Record, to: nat, returned: nat)
    requires KeyOk(info, pad, rec) && to + returned == Top(info, rec)
    ensures KeyOk(info, pad, Rewound(info, rec, to, returned))
    ensures Top(info, Rewound(info, rec, to, returned)) == to == Rewound(info, rec, to, returned).used
  {
    LocateGlobal(info.chunkSize, to);
  }

  /** Where a request starts: at the record when encrypting, at the caller's global offset when decrypting. */
  function StartAt(info: KeyInfo, rec: Record, encrypt: bool, offset: nat): Position
  {
    if encrypt then rec.at
    else if info.chunkSize != 0 then Locate(info.chunkSize, offset)
    else Position(rec.at.chunkId, offset)
  }

  /** A planned request reads exactly its global pad range. */
  lemma StartReads(info: KeyInfo, pad: seq<byte>, rec: Record, encrypt: bool, offset: nat, size: nat)
    requires KeyOk(info, pad, rec)
    requires (if encrypt then rec.used else offset) + size <= |pad|
    ensures var at := StartAt(info, rec, encrypt, offset);
            var from := if encrypt then rec.used else offset;
            && Plannable(info.chunkSize, at)
            && Global(info.chunkSize, at) == from
            && AllReadable(info.chunks, Plan(info.chunkSize, at, size))
            && ReadAll(info.chunks, Plan(info.chunkSize, at, size)) == pad[from..from + size]
  {
    var at := StartAt(info, rec, encrypt, offset);
    LocateGlobal(info.chunkSize, offset);
    PlanCovers(info.chunks, pad, info.chunkSize, rec.at.chunkId, at, size);
  }
}
