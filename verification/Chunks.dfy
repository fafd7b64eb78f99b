/** Chunk arithmetic and the planner that splits one request of a linear pad over its chunks. */
module Chunks {
  import opened Results
  import opened Bytes
  import opened Division

  /** A chunk number and an offset inside that chunk. */
  datatype Position = Position(chunkId: nat, offset: nat)

  /** Splits a global pad offset; chunk size zero means one monolithic chunk. */
  function Locate(chunkSize: nat, global: nat): Position
  {
    if chunkSize != 0 then Position(global / chunkSize, global % chunkSize) else Position(0, global)
  }

  /** The global pad offset that a position denotes. */
  function Global(chunkSize: nat, at: Position): nat
  {
    if chunkSize != 0 then at.chunkId * chunkSize + at.offset else at.offset
  }

  /** Splitting and recombining agree, and the split offset is inside its chunk. */
  lemma LocateGlobal(chunkSize: nat, global: nat)
    ensures Global(chunkSize, Locate(chunkSize, global)) == global
    ensures chunkSize != 0 ==> Locate(chunkSize, global).offset < chunkSize
    ensures chunkSize == 0 ==> Locate(chunkSize, global) == Position(0, global)
  {
  }

  datatype Entry = Entry(chunkId: nat, chunkOffset: nat, length: nat, attached: bool)

  function Take(chunkSize: nat, at: Position, size: nat): nat
    requires at.offset <= chunkSize
  {
    Min(size, chunkSize - at.offset)
  }

  /** Where the planner stands after taking `take` bytes at `at`. */
  function Advance(chunkSize: nat, at: Position, take: nat): Position
  {
    if chunkSize == 0 || at.offset + take < chunkSize then Position(at.chunkId, at.offset + take)
    else Position(at.chunkId + 1, 0)
  }

  predicate Plannable(chunkSize: nat, at: Position)
  {
    chunkSize != 0 ==> at.offset <= chunkSize
  }

  /** A start on the far edge of a chunk costs one extra step that takes nothing. */
  function EdgeSteps(chunkSize: nat, at: Position): nat
  {
    if chunkSize != 0 && at.offset == chunkSize then 1 else 0
  }

  /** The entries for `size` bytes from `at`. */
  function Plan(chunkSize: nat, at: Position, size: nat): seq<Entry>
    requires Plannable(chunkSize, at)
    decreases size, EdgeSteps(chunkSize, at)
  {
    if size == 0 then []
    else if chunkSize == 0 then [Entry(at.chunkId, at.offset, size, false)]
    else
      var take := Take(chunkSize, at, size);
      [Entry(at.chunkId, at.offset, take, false)] + Plan(chunkSize, Advance(chunkSize, at, take), size - take)
  }

  /** The position recorded after `size` bytes from `at`. */
  function PlanEnd(chunkSize: nat, at: Position, size: nat): Position
    requires Plannable(chunkSize, at)
    decreases size, EdgeSteps(chunkSize, at)
  {
    if size == 0 then at
    else if chunkSize == 0 then Advance(0, at, size)
    else
      var take := Take(chunkSize, at, size);
      PlanEnd(chunkSize, Advance(chunkSize, at, take), size - take)
  }

  /** Array length the planner allocates. */
  function Needed(chunkSize: nat, at: Position, size: nat): nat
    requires Plannable(chunkSize, at)
  {
    if chunkSize == 0 then 1
    else
      var firstRoom := chunkSize - at.offset;
      var spilled :=
        if size > firstRoom then
          (size - firstRoom) / chunkSize + (if (size - firstRoom) % chunkSize != 0 then 1 else 0)
        else 0;
      1 + spilled + 1
  }

  function PlanStatus(chunkSize: nat, at: Position, size: nat): Code
  {
    if !Plannable(chunkSize, at) then ChunkOffsetOverflow
    else if chunkSize != 0 && Needed(chunkSize, at, size) > MAX_CHUNK_COUNT then ChunkSizeOverflow
    else Ok
  }

  lemma StepAdvances(chunkSize: nat, at: Position, take: nat)
    requires chunkSize != 0 && at.offset + take <= chunkSize
    ensures Global(chunkSize, Advance(chunkSize, at, take)) == Global(chunkSize, at) + take
    ensures Advance(chunkSize, at, take).offset < chunkSize
  {
    assert (at.chunkId + 1) * chunkSize == at.chunkId * chunkSize + chunkSize;
  }

  /** The final position denotes start + size, and in chunked mode lies strictly inside its chunk. */
  lemma {:induction false} PlanEndsAt(chunkSize: nat, at: Position, size: nat)
    requires Plannable(chunkSize, at)
    ensures Global(chunkSize, PlanEnd(chunkSize, at, size)) == Global(chunkSize, at) + size
    ensures Plannable(chunkSize, PlanEnd(chunkSize, at, size))
    ensures chunkSize != 0 && size > 0 ==> PlanEnd(chunkSize, at, size).offset < chunkSize
    ensures chunkSize == 0 ==> PlanEnd(chunkSize, at, size).chunkId == at.chunkId
    decreases size, EdgeSteps(chunkSize, at)
  {
    if size > 0 && chunkSize != 0 {
      var take := Take(chunkSize, at, size);
      StepAdvances(chunkSize, at, take);
      PlanEndsAt(chunkSize, Advance(chunkSize, at, take), size - take);
    }
  }

  /** In chunked mode the allocated capacity is always the number of entries plus one. */
  lemma {:induction false} CapacityExact(chunkSize: nat, at: Position, size: nat)
    requires chunkSize != 0 && at.offset <= chunkSize && size > 0
    ensures Needed(chunkSize, at, size) == |Plan(chunkSize, at, size)| + 1
    decreases size, EdgeSteps(chunkSize, at)
  {
    var firstRoom := chunkSize - at.offset;
    if size > firstRoom {
      var next := Advance(chunkSize, at, firstRoom);
      assert next == Position(at.chunkId + 1, 0);
      var spill := size - firstRoom;
      CapacityExact(chunkSize, next, spill);
      if spill > chunkSize {
        DivStep(spill, chunkSize);
      } else if spill == chunkSize {
        DivUnique(spill, chunkSize, 1, 0);
      } else {
        DivUnique(spill, chunkSize, 0, spill);
      }
    } else {
      assert Plan(chunkSize, Advance(chunkSize, at, size), 0) == [];
    }
  }

  /** Consecutive entries name consecutive chunks, and each lies inside its own chunk. */
  lemma {:induction false} EntryShape(chunkSize: nat, at: Position, size: nat, i: nat)
    requires Plannable(chunkSize, at) && i < |Plan(chunkSize, at, size)|
    ensures var e := Plan(chunkSize, at, size)[i];
            && e.chunkId == at.chunkId + i && !e.attached
            && e.chunkOffset == (if i == 0 then at.offset else 0)
            && (chunkSize != 0 ==> e.chunkOffset + e.length <= chunkSize)
            && e.length <= size
    decreases i
  {
    if chunkSize != 0 && i > 0 {
      var take := Take(chunkSize, at, size);
      EntryShape(chunkSize, Advance(chunkSize, at, take), size - take, i - 1);
    }
  }

  // ---------------------------------------------------------------------------
  // What a plan reads.

  function Window(pad: seq<byte>, start: nat, length: nat): seq<byte>
  {
    if start >= |pad| then [] else pad[start..Min(start + length, |pad|)]
  }

  /** Chunk i of a pad cut into pieces of chunkSize bytes; empty past the end. */
  function ChunkOf(pad: seq<byte>, chunkSize: nat, i: nat): seq<byte>
  {
    Window(pad, i * chunkSize, chunkSize)
  }

  /** The chunk table holds exactly the chunks of `pad`; a monolithic key has one row. */
  ghost predicate Holds(chunks: map<nat, seq<byte>>, pad: seq<byte>, chunkSize: nat, row: nat)
  {
    if chunkSize == 0 then chunks == map[row := pad]
    else
      && (forall i: nat :: i in chunks <==> ChunkOf(pad, chunkSize, i) != [])
      && (forall i: nat :: i in chunks ==> chunks[i] == ChunkOf(pad, chunkSize, i))
  }

  predicate Readable(chunks: map<nat, seq<byte>>, e: Entry)
  {
    e.chunkId in chunks && e.chunkOffset + e.length <= |chunks[e.chunkId]|
  }

  function Piece(chunks: map<nat, seq<byte>>, e: Entry): seq<byte>
    requires Readable(chunks, e)
  {
    chunks[e.chunkId][e.chunkOffset..e.chunkOffset + e.length]
  }

  predicate AllReadable(chunks: map<nat, seq<byte>>, entries: seq<Entry>)
  {
    entries == [] || (Readable(chunks, entries[0]) && AllReadable(chunks, entries[1..]))
  }

  /** The entries read in order and concatenated. */
  function ReadAll(chunks: map<nat, seq<byte>>, entries: seq<Entry>): seq<byte>
    requires AllReadable(chunks, entries)
  {
    if entries == [] then [] else Piece(chunks, entries[0]) + ReadAll(chunks, entries[1..])
  }

  lemma PieceOfPad(chunks: map<nat, seq<byte>>, pad: seq<byte>, chunkSize: nat, row: nat, e: Entry, from: nat)
    requires Holds(chunks, pad, chunkSize, row)
    requires from == Global(chunkSize, Position(e.chunkId, e.chunkOffset)) < |pad| && from + e.length <= |pad|
    requires if chunkSize == 0 then e.chunkId == row else e.chunkOffset + e.length <= chunkSize
    ensures Readable(chunks, e) && Piece(chunks, e) == pad[from..from + e.length]
  {
    if chunkSize != 0 {
      assert e.chunkId in chunks && chunks[e.chunkId] == ChunkOf(pad, chunkSize, e.chunkId) by {
        WindowSlice(pad, e.chunkId * chunkSize, chunkSize, e.chunkOffset, e.length);
      }
      WindowSlice(pad, e.chunkId * chunkSize, chunkSize, e.chunkOffset, e.length);
    }
  }

  lemma WindowSlice(pad: seq<byte>, start: nat, length: nat, offset: nat, count: nat)
    requires start < |pad| && 0 < length && offset + count <= length && start + offset + count <= |pad|
    ensures Window(pad, start, length) != [] && offset + count <= |Window(pad, start, length)|
    ensures Window(pad, start, length)[offset..offset + count] == pad[start + offset..start + offset + count]
  {
    SliceOfSlice(pad, start, Min(start + length, |pad|), offset, offset + count);
  }

  lemma SliceOfSlice<T>(s: seq<T>, a: nat, b: nat, c: nat, d: nat)
    requires a <= b <= |s| && c <= d <= b - a
    ensures s[a..b][c..d] == s[a + c..a + d]
  {
    forall i | 0 <= i < d - c
      ensures s[a..b][c..d][i] == s[a + c..a + d][i]
    {
      assert s[a..b][c..d][i] == s[a..b][c + i];
    }
  }

  /** The entries lie edge to edge, each inside its own chunk, over the global range [from, from + size). */
  predicate EdgeToEdge(chunkSize: nat, row: nat, entries: seq<Entry>, from: nat, size: nat)
  {
    if entries == [] then size == 0
    else
      var e := entries[0];
      && 0 < size && e.length <= size
      && Global(chunkSize, Position(e.chunkId, e.chunkOffset)) == from
      && (if chunkSize == 0 then e.chunkId == row else e.chunkOffset + e.length <= chunkSize)
      && EdgeToEdge(chunkSize, row, entries[1..], from + e.length, size - e.length)
  }

  /** A plan has no gap and no overlap. */
  lemma {:induction false} PlanEdgeToEdge(chunkSize: nat, row: nat, at: Position, size: nat)
    requires Plannable(chunkSize, at) && (chunkSize == 0 ==> at.chunkId == row)
    ensures EdgeToEdge(chunkSize, row, Plan(chunkSize, at, size), Global(chunkSize, at), size)
    decreases size, EdgeSteps(chunkSize, at)
  {
    if size > 0 && chunkSize != 0 {
      var take := Take(chunkSize, at, size);
      StepAdvances(chunkSize, at, take);
      PlanEdgeToEdge(chunkSize, row, Advance(chunkSize, at, take), size - take);
    }
  }

  /** The entries, one after the other, read pad[from..from + size]. */
  ghost predicate Covers(chunks: map<nat, seq<byte>>, pad: seq<byte>, entries: seq<Entry>, from: nat, size: nat)
    requires from + size <= |pad|
  {
    if entries == [] then size == 0
    else
      var e := entries[0];
      && Readable(chunks, e)
      && e.length <= size
      && Piece(chunks, e) == pad[from..from + e.length]
      && Covers(chunks, pad, entries[1..], from + e.length, size - e.length)
  }

  lemma {:induction false} CoverReads(chunks: map<nat, seq<byte>>, pad: seq<byte>, entries: seq<Entry>,
                                      from: nat, size: nat)
    requires from + size <= |pad| && Covers(chunks, pad, entries, from, size)
    ensures AllReadable(chunks, entries) && ReadAll(chunks, entries) == pad[from..from + size]
  {
    if entries != [] {
      var mid := from + entries[0].length;
      CoverReads(chunks, pad, entries[1..], mid, from + size - mid);
      JoinSlices(pad, from, mid, from + size, Piece(chunks, entries[0]), ReadAll(chunks, entries[1..]));
    }
  }

  lemma {:induction false} EdgeToEdgeCovers(chunks: map<nat, seq<byte>>, pad: seq<byte>, chunkSize: nat, row: nat,
                                            entries: seq<Entry>, from: nat, size: nat)
    requires Holds(chunks, pad, chunkSize, row)
    requires EdgeToEdge(chunkSize, row, entries, from, size) && from + size <= |pad|
    ensures Covers(chunks, pad, entries, from, size)
  {
    if entries != [] {
      var len := entries[0].length;
      HeadReads(chunks, pad, chunkSize, row, entries, from, size);
      EdgeToEdgeCovers(chunks, pad, chunkSize, row, entries[1..], from + len, size - len);
    }
  }

  lemma JoinSlices<T>(s: seq<T>, a: nat, b: nat, c: nat, x: seq<T>, y: seq<T>)
    requires a <= b <= c <= |s| && x == s[a..b] && y == s[b..c]
    ensures x + y == s[a..c]
  {
  }

  lemma HeadReads(chunks: map<nat, seq<byte>>, pad: seq<byte>, chunkSize: nat, row: nat,
                  entries: seq<Entry>, from: nat, size: nat)
    requires Holds(chunks, pad, chunkSize, row) && entries != []
    requires EdgeToEdge(chunkSize, row, entries, from, size) && from + size <= |pad|
    ensures Readable(chunks, entries[0]) && Piece(chunks, entries[0]) == pad[from..from + entries[0].length]
  {
    PieceOfPad(chunks, pad, chunkSize, row, entries[0], from);
  }

  /** A plan is an exact cover: its entries, read in order and concatenated, are the requested pad range. */
  lemma PlanCovers(chunks: map<nat, seq<byte>>, pad: seq<byte>, chunkSize: nat, row: nat, at: Position, size: nat)
    requires Holds(chunks, pad, chunkSize, row) && Plannable(chunkSize, at)
    requires chunkSize == 0 ==> at.chunkId == row
    requires Global(chunkSize, at) + size <= |pad|
    ensures AllReadable(chunks, Plan(chunkSize, at, size))
    ensures ReadAll(chunks, Plan(chunkSize, at, size)) == pad[Global(chunkSize, at)..Global(chunkSize, at) + size]
  {
    PlanEdgeToEdge(chunkSize, row, at, size);
    EdgeToEdgeCovers(chunks, pad, chunkSize, row, Plan(chunkSize, at, size), Global(chunkSize, at), size);
    CoverReads(chunks, pad, Plan(chunkSize, at, size), Global(chunkSize, at), size);
  }
}
