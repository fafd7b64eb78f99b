/** The chunk planner in its in-place form. */
module Planner {
  import opened Results
  import opened Chunks

  class ChunkPlan {
    var entries: array?<Entry>
    var count: nat
    var final: Position

    constructor ()
      ensures entries == null && count == 0
    {
      entries, count, final := null, 0, Position(0, 0);
    }

    function Listed(): seq<Entry>
      reads this, entries
      requires count <= Capacity()
    {
      if entries == null then [] else entries[..count]
    }

    function Capacity(): nat
      reads this
    {
      if entries == null then 0 else entries.Length
    }
  }

  /** Fills an empty plan with the entries for `size` bytes from `at`. */
  method PlanChunkRange(chunkSize: nat, at: Position, size: nat, plan: ChunkPlan) returns (code: Code)
    modifies plan
    ensures old(plan.entries) != null || old(plan.count) != 0 ==> code == MustBeNull
    ensures old(plan.entries) == null && old(plan.count) == 0 ==> code == PlanStatus(chunkSize, at, size)
    ensures code != Ok ==> unchanged(plan)
    ensures code == Ok ==>
      && plan.entries != null && fresh(plan.entries) && plan.count <= plan.entries.Length
      && plan.Listed() == Plan(chunkSize, at, size)
      && plan.final == PlanEnd(chunkSize, at, size)
      && plan.entries.Length == Needed(chunkSize, at, size)
      && (size > 0 ==> plan.entries.Length == if chunkSize == 0 then plan.count else plan.count + 1)
  {
    if plan.entries != null || plan.count != 0 {
      return MustBeNull;
    }
    if chunkSize != 0 && at.offset > chunkSize {
      return ChunkOffsetOverflow;
    }
    var capacity := Needed(chunkSize, at, size);
    if chunkSize != 0 && capacity > MAX_CHUNK_COUNT {
      return ChunkSizeOverflow;
    }
    var entries := new Entry[capacity](_ => Entry(0, 0, 0, false));
    var index, final := FillPlan(chunkSize, at, size, entries);
    plan.entries, plan.count, plan.final := entries, index, final;
    return Ok;
  }

  /** The planning loop. Its guard on the capacity is never taken. */
  method FillPlan(chunkSize: nat, at: Position, size: nat, entries: array<Entry>) returns (index: nat, current: Position)
    requires Plannable(chunkSize, at) && entries.Length == Needed(chunkSize, at, size)
    modifies entries
    ensures index <= entries.Length && entries[..index] == Plan(chunkSize, at, size)
    ensures current == PlanEnd(chunkSize, at, size)
    ensures size > 0 ==> entries.Length == if chunkSize == 0 then index else index + 1
  {
    if chunkSize != 0 && size > 0 {
      CapacityExact(chunkSize, at, size);
    }
    var remaining: nat := size;
    index, current := 0, at;
    while remaining > 0
      invariant Plannable(chunkSize, current) && index <= entries.Length
      invariant chunkSize == 0 ==> remaining == 0 || (index == 0 && current == at && remaining == size)
      invariant entries[..index] + Plan(chunkSize, current, remaining) == Plan(chunkSize, at, size)
      invariant PlanEnd(chunkSize, current, remaining) == PlanEnd(chunkSize, at, size)
      decreases remaining, EdgeSteps(chunkSize, current)
    {
      assert |Plan(chunkSize, current, remaining)| > 0;
      if index >= entries.Length {
        assert false;
      }
      var take: nat := remaining;
      if chunkSize != 0 && take > chunkSize - current.offset {
        take := chunkSize - current.offset;
      }
      ghost var done := entries[..index];
      var next := Entry(current.chunkId, current.offset, take, false);
      entries[index] := next;
      assert entries[..index + 1] == done + [next];
      PlanCons(chunkSize, current, remaining, take, done);
      remaining := remaining - take;
      index := index + 1;
      current := Advance(chunkSize, current, take);
      if chunkSize == 0 {
        break;
      }
    }
  }

  lemma PlanCons(chunkSize: nat, at: Position, size: nat, take: nat, done: seq<Entry>)
    requires Plannable(chunkSize, at) && size > 0
    requires take == if chunkSize == 0 then size else Take(chunkSize, at, size)
    ensures Plannable(chunkSize, Advance(chunkSize, at, take))
    ensures done + Plan(chunkSize, at, size)
         == (done + [Entry(at.chunkId, at.offset, take, false)]) + Plan(chunkSize, Advance(chunkSize, at, take), size - take)
    ensures PlanEnd(chunkSize, at, size) == PlanEnd(chunkSize, Advance(chunkSize, at, take), size - take)
  {
  }
}
