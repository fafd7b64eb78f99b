/** The intrusive linked queue of buffers, and buffers that migrate between queues. */
module Queue {
  import opened Results

  const QUEUE_COOKIE := 0x318A20B7

  /** A buffer with its link. A buffer that is in no queue is linked to itself. */
  class Element {
    var next: Element?
    var cookie: int
    var sizeData: int

    constructor (sizeData: int)
      ensures next == null && cookie == QUEUE_COOKIE && this.sizeData == sizeData
    {
      this.next, this.cookie, this.sizeData := null, QUEUE_COOKIE, sizeData;
    }
  }

  /** The elements are distinct, each linked to the one behind it, the last to none. */
  ghost predicate Linked(s: seq<Element>)
    reads s
  {
    && (forall i, j :: 0 <= i < j < |s| ==> s[i] != s[j])
    && (forall i :: 0 <= i < |s| - 1 ==> s[i].next == s[i + 1])
    && (s != [] ==> s[|s| - 1].next == null)
    && (forall i :: 0 <= i < |s| ==> s[i].cookie == QUEUE_COOKIE)
  }

  lemma NoSelfLink(s: seq<Element>, e: Element)
    requires Linked(s) && e in s
    ensures e.next != e && e.cookie == QUEUE_COOKIE
  {
    var i :| 0 <= i < |s| && s[i] == e;
    assert i < |s| - 1 ==> e.next == s[i + 1];
  }

  /** A queue none of whose buffers has changed is as it was. */
  twostate lemma StaysValid(q: BufferQueue)
    requires old(q.Valid()) && unchanged(q)
    requires forall e :: e in q.contents ==> unchanged(e)
    ensures q.Valid()
  {
    assert forall i :: 0 <= i < |q.contents| ==> q.contents[i] in q.contents;
  }

  class BufferQueue {
    const growBy: nat
    const bufferSize: nat
    var head: Element?
    var tail: Element?
    ghost var contents: seq<Element>
    ghost var faults: nat                // failed allocations

    /** Head, tail and links agree with the contents. */
    ghost predicate Valid()
      reads this, contents
    {
      && Linked(contents)
      && head == (if contents == [] then null else contents[0])
      && tail == (if contents == [] then null else contents[|contents| - 1])
    }

    constructor (growBy: nat, bufferSize: nat)
      ensures Valid() && contents == [] && this.growBy == growBy && this.bufferSize == bufferSize && faults == 0
    {
      this.growBy, this.bufferSize, head, tail, contents, faults := growBy, bufferSize, null, null, [], 0;
    }

    /** Puts an element in no queue behind the last one. */
    method Append(e: Element)
      requires Valid() && e !in contents && e.next == null && e.cookie == QUEUE_COOKIE
      modifies this, tail
      ensures Valid() && contents == old(contents) + [e] && faults == old(faults)
      ensures forall i :: 0 <= i < |old(contents)| ==> contents[i].sizeData == old(contents[i].sizeData)
      ensures e.sizeData == old(e.sizeData) && e.cookie == old(e.cookie) && e.next == old(e.next)
    {
      if head == null {
        head := e;
      } else {
        tail.next := e;
      }
      tail := e;
      contents := contents + [e];
    }

    /** Adds n new buffers at the tail. When memory runs out, those added before stay in the queue. */
    method Grow(n: nat) returns (code: Code)
      requires Valid()
      modifies this, contents
      ensures Valid() && old(contents) <= contents
      ensures |contents| <= |old(contents)| + n
      ensures forall i :: |old(contents)| <= i < |contents| ==> fresh(contents[i]) && contents[i].sizeData == bufferSize
      ensures forall i :: 0 <= i < |old(contents)| ==> contents[i].sizeData == old(contents[i].sizeData)
      ensures code == Ok <==> |contents| == |old(contents)| + n
      ensures code != Ok ==> code == OutOfMemory
      ensures faults == old(faults) + if code == Ok then 0 else 1
    {
      var index := 0;
      while index < n
        invariant 0 <= index <= n && Valid() && faults == old(faults) && |contents| == |old(contents)| + index
        invariant old(contents) <= contents
        invariant forall i :: |old(contents)| <= i < |contents| ==> fresh(contents[i]) && contents[i].sizeData == bufferSize
        invariant forall i :: 0 <= i < |old(contents)| ==> contents[i].sizeData == old(contents[i].sizeData)
      {
        var allocates: bool := *;
        if !allocates {
          faults := faults + 1;
          return OutOfMemory;
        }
        var e := new Element(bufferSize);
        assert tail != null ==> tail == contents[|contents| - 1];
        Append(e);
        index := index + 1;
      }
      return Ok;
    }

    /**
     Takes the buffer at the head out and links it to itself. An empty queue grows first, if it may; when that
     fails half-way, the buffers it did get stay, but none is returned.
     */
    method Pop() returns (code: Code, e: Element?, size: int)
      requires Valid()
      modifies this, contents
      ensures Valid()
      ensures code == Ok <==> e != null
      ensures code == Ok ==> e !in contents && e.next == e && e.cookie == QUEUE_COOKIE && size == e.sizeData
      ensures old(contents) != [] ==>
        code == Ok && [e] + contents == old(contents) && size == old(contents[0].sizeData)
      ensures faults == old(faults) + if code == OutOfMemory then 1 else 0
      ensures old(contents) == [] && growBy == 0 ==> code == OutOfQueueBuffers && contents == []
      ensures old(contents) == [] && growBy > 0 && code == Ok ==>
        fresh(e) && |contents| == growBy - 1 && (forall i :: 0 <= i < |contents| ==> fresh(contents[i])) && size == bufferSize
      ensures old(contents) == [] && growBy > 0 && code != Ok ==>
        code == OutOfMemory && |contents| < growBy && forall i :: 0 <= i < |contents| ==> fresh(contents[i])
    {
      e, size := null, 0;
      if head == null {
        if growBy == 0 {
          return OutOfQueueBuffers, e, size;
        }
        code := Grow(growBy);
        if code != Ok {
          return;
        }
      }
      var first := head;
      head := first.next;
      contents := contents[1..];
      if head == null {
        tail := null;
      }
      first.next := first;
      return Ok, first, first.sizeData;
    }

    /** Puts a buffer back at the tail, unless it is no buffer of a queue or is in a queue already. */
    method Push(e: Element, sizeData: int) returns (code: Code)
      requires Valid()
      modifies this, tail, e
      ensures Valid()
      ensures code == (if old(e.cookie) != QUEUE_COOKIE then InvalidQueueBuffer
                       else if old(e.next) != e then AlreadyInsertedIntoQueue else Ok)
      ensures code == Ok ==>
        && contents == old(contents) + [e] && e.next == null
        && e.sizeData == if sizeData == -1 then bufferSize else sizeData
      ensures e.cookie == old(e.cookie)
      ensures code != Ok ==> unchanged(this) && unchanged(e) && (tail != null ==> unchanged(tail))
      ensures forall i :: 0 <= i < |old(contents)| && old(contents)[i] != e ==>
        old(contents)[i].sizeData == old(contents[i].sizeData)
    {
      if e.cookie != QUEUE_COOKIE {
        return InvalidQueueBuffer;
      }
      ghost var queued := e in contents;
      if queued {
        NoSelfLink(contents, e);
      }
      if e.next != e {
        return AlreadyInsertedIntoQueue;
      }
      e.next := null;
      e.sizeData := if sizeData == -1 then bufferSize else sizeData;
      Append(e);
      return Ok;
    }
  }

  ghost function Elements(s: seq<Element>): set<Element>
  {
    set e | e in s
  }

  /** Two queues that share their buffers, and the buffers their users hold. */
  class Pool {
    const first: BufferQueue
    const second: BufferQueue
    ghost var held: set<Element>
    ghost var created: set<Element>

    /**
     Every buffer ever created is in exactly one of the two queues or held; and those held are the ones that are
     linked to themselves.
     */
    ghost predicate Valid()
      reads this, first, second, first.contents, second.contents, held
    {
      && first != second && first.Valid() && second.Valid()
      && (forall e :: e in first.contents ==> e !in second.contents && e !in held && e in created)
      && (forall e :: e in second.contents ==> e !in held && e in created)
      && (forall e :: e in created ==> e in first.contents || e in second.contents || e in held)
      && held <= created
      && forall e :: e in held ==> e.next == e && e.cookie == QUEUE_COOKIE
    }

    constructor (first: BufferQueue, second: BufferQueue)
      requires first != second && first.Valid() && second.Valid()
      requires forall e :: e in first.contents ==> e !in second.contents
      ensures Valid() && this.first == first && this.second == second && held == {}
    {
      this.first, this.second := first, second;
      held, created := {}, Elements(first.contents) + Elements(second.contents);
    }

    /** Takes the buffer at the head of a queue that has one. */
    method TakeQueued(from: BufferQueue) returns (code: Code, e: Element?, size: int)
      requires Valid() && (from == first || from == second) && from.contents != []
      modifies this, from, from.contents
      ensures Valid() && created == old(created)
      ensures code == Ok && e != null && held == old(held) + {e} && e !in old(held)
      ensures [e] + from.contents == old(from.contents)
      ensures from != first ==> first.contents == old(first.contents)
      ensures from != second ==> second.contents == old(second.contents)
    {
      hide Linked, BufferQueue.Valid;
      ghost var other := if from == first then second else first;
      ghost var before := from.contents;
      code, e, size := from.Pop();
      assert before[0] == e && before[1..] == from.contents;
      assert e in before && forall x :: x in from.contents ==> x in before;
      held := held + {e};
      StaysValid(other);
    }

    /** Takes a buffer from a queue that has to grow first. */
    method TakeGrown(from: BufferQueue) returns (code: Code, e: Element?, size: int)
      requires Valid() && (from == first || from == second) && from.contents == []
      modifies this, from
      ensures Valid() && old(created) <= created
      ensures code == Ok <==> e != null
      ensures code == Ok ==> held == old(held) + {e} && e !in old(held)
      ensures code != Ok ==> held == old(held)
      ensures from != first ==> first.contents == old(first.contents)
      ensures from != second ==> second.contents == old(second.contents)
    {
      hide Linked, BufferQueue.Valid;
      ghost var other := if from == first then second else first;
      code, e, size := from.Pop();
      held := held + if e != null then {e} else {};
      created := created + Elements(from.contents) + if e != null then {e} else {};
      StaysValid(other);
    }

    /** Takes a buffer from one queue; the other keeps its contents. */
    method Take(from: BufferQueue) returns (code: Code, e: Element?, size: int)
      requires Valid() && (from == first || from == second)
      modifies this, from, from.contents
      ensures Valid() && old(created) <= created
      ensures code == Ok <==> e != null
      ensures code == Ok ==> held == old(held) + {e} && e !in old(held)
      ensures code != Ok ==> held == old(held)
      ensures old(from.contents) != [] ==>
        code == Ok && [e] + from.contents == old(from.contents) && created == old(created)
      ensures from != first ==> first.contents == old(first.contents)
      ensures from != second ==> second.contents == old(second.contents)
    {
      hide Linked;
      if from.head == null {
        code, e, size := TakeGrown(from);
      } else {
        code, e, size := TakeQueued(from);
      }
    }

    /**
     Puts a buffer into one queue. A buffer that is held goes to the tail; one that is in either queue already is
     refused, and nothing changes.
     */
    method Give(to: BufferQueue, e: Element, sizeData: int) returns (code: Code)
      requires Valid() && (to == first || to == second) && e in created
      modifies this, to, to.contents, e
      ensures Valid() && created == old(created)
      ensures code == if e in old(held) then Ok else AlreadyInsertedIntoQueue
      ensures code == Ok ==> to.contents == old(to.contents) + [e] && held == old(held) - {e}
      ensures code != Ok ==> to.contents == old(to.contents) && held == old(held)
      ensures to != first ==> first.contents == old(first.contents)
      ensures to != second ==> second.contents == old(second.contents)
    {
      hide Linked;
      ghost var other := if to == first then second else first;
      if e in other.contents {
        NoSelfLink(other.contents, e);
      }
      if e in to.contents {
        NoSelfLink(to.contents, e);
      }
      assert to.tail != null ==> to.tail in to.contents;
      assert e in held ==> e !in other.contents;
      assert forall x :: x in other.contents ==> x !in to.contents;
      code := to.Push(e, sizeData);
      if code == Ok {
        held := held - {e};
      }
      StaysValid(other);
    }
  }

  lemma {:induction false} DistinctCount(s: seq<Element>)
    requires forall i, j :: 0 <= i < j < |s| ==> s[i] != s[j]
    ensures |Elements(s)| == |s|
  {
    if s != [] {
      var front := s[..|s| - 1];
      DistinctCount(front);
      assert Elements(s) == Elements(front) + {s[|s| - 1]};
    }
  }

  /** The two queues and the buffers held add up to the buffers created. */
  lemma CountsAddUp(p: Pool)
    requires p.Valid()
    ensures |p.created| == |p.first.contents| + |p.second.contents| + |p.held|
    ensures forall e :: e in p.created ==> (e in p.held <==> e.next == e)
  {
    DistinctCount(p.first.contents);
    DistinctCount(p.second.contents);
    assert p.created == Elements(p.first.contents) + Elements(p.second.contents) + p.held;
    forall e | e in p.created && e !in p.held
      ensures e.next != e
    {
      if e in p.first.contents {
        NoSelfLink(p.first.contents, e);
      } else {
        NoSelfLink(p.second.contents, e);
      }
    }
  }
}
