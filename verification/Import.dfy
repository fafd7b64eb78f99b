/** Moving pad bytes from the end of a file into a chunk of a key database. */
module Import {
  import opened Results
  import opened Bytes
  import opened Division
  import opened Keys

  const MAXIMUM_READ_SIZE: nat := 52428800

  /** What an import changes in the file and in the database, as the two record it themselves. */
  datatype Event =
    | Cut(keep: nat)                                          // the file keeps its first bytes only
    | Wrote(chunkId: nat, offset: nat, bytes: seq<byte>)      // bytes written into the data of a chunk
    | Committed

  /** The record of all changes, in the order in which they happened. */
  class Journal {
    ghost var events: seq<Event>

    constructor ()
      ensures events == []
    {
      events := [];
    }
  }

  /** A file of pad bytes. */
  class PadFile {
    const journal: Journal
    var content: seq<byte>
    ghost var faults: nat

    constructor (content: seq<byte>, journal: Journal)
      ensures this.content == content && this.journal == journal && faults == 0
    {
      this.content, this.journal, faults := content, journal, 0;
    }

    /** The last n bytes; a failed read has no effect. */
    method ReadTail(n: nat) returns (bytes: Option<seq<byte>>)
      modifies this`faults
      ensures bytes.Some? ==> n <= |content| && bytes.value == content[|content| - n..] && faults == old(faults)
      ensures bytes.None? && n <= |content| ==> faults == old(faults) + 1
      ensures old(faults) <= faults
    {
      var fault: bool := *;
      if n > |content| {
        return None;
      } else if fault {
        faults := faults + 1;
        return None;
      }
      return Some(content[|content| - n..]);
    }

    method Truncate(size: nat) returns (ok: bool)
      requires size <= |content|
      modifies this, journal
      ensures ok ==> content == old(content)[..size] && faults == old(faults)
      ensures !ok ==> content == old(content) && faults == old(faults) + 1
      ensures journal.events == old(journal.events) + if ok then [Cut(size)] else []
    {
      ok := *;
      if ok {
        content := content[..size];
        journal.events := journal.events + [Cut(size)];
      } else {
        faults := faults + 1;
      }
    }
  }

  /** A key database: each chunk has its data, or none yet. */
  class KeyDatabase {
    const journal: Journal
    var committed: map<nat, Option<seq<byte>>>
    var working: map<nat, Option<seq<byte>>>
    var open: bool
    ghost var faults: nat

    constructor (chunks: map<nat, Option<seq<byte>>>, journal: Journal)
      ensures Settled() && committed == chunks && this.journal == journal && faults == 0
    {
      committed, working, open, this.journal, faults := chunks, chunks, false, journal, 0;
    }

    ghost predicate Settled()
      reads this
    {
      !open && working == committed
    }

    method Begin() returns (ok: bool)
      requires Settled()
      modifies this`open, this`faults
      ensures open == ok && faults == old(faults) + (if ok then 0 else 1)
    {
      ok := *;
      open := ok;
      if !ok {
        faults := faults + 1;
      }
    }

    /** Gives the chunk zeros to write over, unless its data is long enough already. */
    method UpdateZeroBlob(chunkId: nat, size: nat) returns (ok: bool)
      requires open
      modifies this`working, this`faults
      ensures ok ==> faults == old(faults) && working == Roomy(old(working), chunkId, size)
      ensures ok ==>
        if chunkId in old(working) && (old(working)[chunkId] == None || |old(working)[chunkId].value| < size) then
          working == old(working)[chunkId := Some(seq(size, _ => 0))]
        else working == old(working)
      ensures !ok ==> working == old(working) && faults == old(faults) + 1
    {
      ok := *;
      if !ok {
        faults := faults + 1;
      } else if chunkId in working {
        if working[chunkId] == None || |working[chunkId].value| < size {
          working := working[chunkId := Some(seq(size, _ => 0))];
        } else {
          assert Roomy(working, chunkId, size) == working;
        }
      }
    }

    /** Opens the data of a chunk for writing. */
    method OpenBlob(chunkId: nat) returns (ok: bool)
      modifies this`faults
      ensures ok ==> chunkId in working && working[chunkId].Some? && faults == old(faults)
      ensures !ok && chunkId in working && working[chunkId].Some? ==> faults == old(faults) + 1
      ensures old(faults) <= faults
    {
      var fault: bool := *;
      ok := chunkId in working && working[chunkId].Some? && !fault;
      if chunkId in working && working[chunkId].Some? && fault {
        faults := faults + 1;
      }
    }

    /** Writes inside the data of a chunk; writing past its end fails. */
    method WriteBlob(chunkId: nat, bytes: seq<byte>, offset: nat) returns (ok: bool)
      requires open && chunkId in working && working[chunkId].Some?
      modifies this`working, this`faults, journal
      ensures ok ==>
        && offset + |bytes| <= |old(working)[chunkId].value| && faults == old(faults)
        && working == old(working)[chunkId := Some(Over(old(working)[chunkId].value, bytes, offset))]
      ensures !ok ==> working == old(working)
      ensures journal.events == old(journal.events) + if ok then [Wrote(chunkId, offset, bytes)] else []
      ensures !ok && offset + |bytes| <= |old(working)[chunkId].value| ==> faults == old(faults) + 1
      ensures old(faults) <= faults
    {
      var fault: bool := *;
      ok := offset + |bytes| <= |working[chunkId].value| && !fault;
      if ok {
        working := working[chunkId := Some(Over(working[chunkId].value, bytes, offset))];
        journal.events := journal.events + [Wrote(chunkId, offset, bytes)];
      } else if offset + |bytes| <= |working[chunkId].value| {
        faults := faults + 1;
      }
    }

    method CloseBlob() returns (ok: bool)
      modifies this`faults
      ensures faults == old(faults) + (if ok then 0 else 1)
    {
      ok := *;
      if !ok {
        faults := faults + 1;
      }
    }

    method Commit() returns (ok: bool)
      requires open
      modifies this`open, this`committed, this`faults, journal
      ensures journal.events == old(journal.events) + if ok then [Committed] else []
      ensures ok ==> !open && committed == working && faults == old(faults)
      ensures !ok ==> open && committed == old(committed) && faults == old(faults) + 1
    {
      ok := *;
      if ok {
        open, committed := false, working;
        journal.events := journal.events + [Committed];
      } else {
        faults := faults + 1;
      }
    }

    /** Closes the connection, which drops what was not committed. */
    method Close()
      modifies this`open, this`working
      ensures Settled()
    {
      open, working := false, committed;
    }
  }

  /** The data of a chunk once there is room for `size` bytes. */
  function Base(data: Option<seq<byte>>, size: nat): (s: seq<byte>)
    ensures size <= |s|
  {
    if data == None || |data.value| < size then seq(size, _ => 0) else data.value
  }

  function Roomy(chunks: map<nat, Option<seq<byte>>>, chunkId: nat, size: nat): map<nat, Option<seq<byte>>>
  {
    if chunkId in chunks then chunks[chunkId := Some(Base(chunks[chunkId], size))] else chunks
  }

  /** `bytes` written over `data` at an offset. */
  function Over(data: seq<byte>, bytes: seq<byte>, offset: nat): (s: seq<byte>)
    requires offset + |bytes| <= |data|
    ensures |s| == |data|
  {
    data[..offset] + bytes + data[offset + |bytes|..]
  }

  /** The blocks of s in reverse order, cut from its end, each block as it was. */
  function BlockReverse(s: seq<byte>, block: nat): (r: seq<byte>)
    requires block > 0
    ensures |r| == |s|
  {
    if |s| <= block then s else s[|s| - block..] + BlockReverse(s[..|s| - block], block)
  }

  /** It is a permutation. */
  lemma {:induction false} BlockReverseSameBytes(s: seq<byte>, block: nat)
    requires block > 0
    ensures multiset(BlockReverse(s, block)) == multiset(s)
  {
    if |s| > block {
      BlockReverseSameBytes(s[..|s| - block], block);
      assert s == s[..|s| - block] + s[|s| - block..];
    }
  }

  /** Byte p of the result is in block p / block, counted from the end of s, at the same place in that block. */
  lemma {:induction false} BlockReverseAt(s: seq<byte>, block: nat, p: nat)
    requires block > 0 && p < |s|
    ensures 0 <= |s| - Min(|s|, (p / block + 1) * block) + p % block < |s|
    ensures BlockReverse(s, block)[p] == s[|s| - Min(|s|, (p / block + 1) * block) + p % block]
  {
    if |s| <= block || p < block {
      FirstBlock(p, block);
    } else {
      OneBlockLess(p, block);
      BlockReverseAt(s[..|s| - block], block, p - block);
    }
  }

  lemma FirstBlock(p: nat, block: nat)
    requires p < block
    ensures p / block == 0 && p % block == p && (p / block + 1) * block == block
  {
  }

  lemma OneBlockLess(p: nat, block: nat)
    requires 0 < block <= p
    ensures (p - block) % block == p % block && (p / block + 1) * block == ((p - block) / block + 1) * block + block
  {
    DivStep(p, block);
    var q := (p - block) / block + 1;
    assert (q + 1) * block == q * block + block;
  }

  /** n bytes make whole blocks. */
  predicate Whole(n: nat, block: nat)
    requires block > 0
  {
    n == 0 || (block <= n && Whole(n - block, block))
  }

  /** Growing whole blocks at their front by at most one more block. */
  lemma {:induction false} AppendsBlock(s: seq<byte>, r: nat, block: nat)
    requires 0 < r <= block && r <= |s| && Whole(|s| - r, block)
    ensures BlockReverse(s, block) == BlockReverse(s[r..], block) + s[..r]
  {
    if |s| > r {
      var t := s[..|s| - block];
      AppendsBlock(t, r, block);
      assert t[r..] == s[r..][..|s[r..]| - block] && t[..r] == s[..r];
      assert s[r..][|s[r..]| - block..] == s[|s| - block..];
      if |s[r..]| == block {
        assert t[r..] == [] && s[r..] == s[|s| - block..];
      }
    }
  }

  /** What the checks before the file is opened say. */
  function ImportStatus(s: Importer, chunkId: nat, offset: nat, size: nat): Code
    reads s
  {
    if chunkId == 0 then InvalidChunkId
    else if offset > INT_MAX then KeyOffsetOverflow
    else if size == 0 then InvalidArg
    else if size > INT_MAX then Overflow
    else if size > MAX_CHUNK_SIZE then MaximumKeySizeExceeded
    else if offset + size > INT_MAX then Overflow
    else if !s.imports then WrongSessionType
    else if s.keyId == None then NoKeyForSession
    else if !s.hasKeyFile then NoKeyDatabaseForSession
    else if !s.mounted then NoMountedDatabase
    else Ok
  }

  /** Which refusal each of the violated conditions gives, in the order they are looked at. */
  lemma ImportAnswers(s: Importer, chunkId: nat, offset: nat, size: nat)
    ensures var code := ImportStatus(s, chunkId, offset, size);
      && (code == InvalidChunkId <==> chunkId == 0)
      && (code == KeyOffsetOverflow <==> chunkId != 0 && offset > 0x7FFF_FFFF)
      && (code == InvalidArg <==> chunkId != 0 && offset <= 0x7FFF_FFFF && size == 0)
      && (code == MaximumKeySizeExceeded <==> chunkId != 0 && offset <= 0x7FFF_FFFF && 900000000 < size <= 0x7FFF_FFFF)
      && (code == Overflow <==>
            chunkId != 0 && offset <= 0x7FFF_FFFF
            && (size > 0x7FFF_FFFF || (0 < size <= 900000000 && offset + size > 0x7FFF_FFFF)))
    ensures var code := ImportStatus(s, chunkId, offset, size);
      chunkId != 0 && 0 < size <= 900000000 && offset + size <= 0x7FFF_FFFF ==>
        && (code == WrongSessionType <==> !s.imports)
        && (code == NoKeyForSession <==> s.imports && s.keyId == None)
        && (code == NoKeyDatabaseForSession <==> s.imports && s.keyId != None && !s.hasKeyFile)
        && (code == NoMountedDatabase <==> s.imports && s.keyId != None && s.hasKeyFile && !s.mounted)
        && (code == Ok <==> s.imports && s.keyId != None && s.hasKeyFile && s.mounted)
  {
  }

  /** The part of a session that importing uses. */
  class Importer {
    var imports: bool
    var keyId: Option<KeyId>
    var hasKeyFile: bool
    var mounted: bool
    var transaction: bool
  }

  /**
   One moment of an import: the file, the chunk's data as the transaction sees it and as committed, and the number of
   bytes moved so far.
   */
  datatype Moment = Moment(file: seq<byte>, working: seq<byte>, committed: Option<seq<byte>>, moved: nat)

  /** The last n bytes. */
  function Tail(content: seq<byte>, n: nat): seq<byte>
    requires n <= |content|
  {
    content[|content| - n..]
  }

  /** The chunk's data with the last `moved` bytes of the file in their places. */
  function Filled(content: seq<byte>, base: seq<byte>, offset: nat, moved: nat): (s: seq<byte>)
    requires moved <= |content| && (moved > 0 ==> offset + moved <= |base|)
    ensures |s| == |base|
  {
    if moved == 0 then base else Over(base, BlockReverse(Tail(content, moved), MAXIMUM_READ_SIZE), offset)
  }

  /**
   The bytes from offset on are the last `size` bytes of the content, in blocks of 52428800 cut from its end, the last
   block first, and each block as it was.
   */
  ghost predicate FromTail(content: seq<byte>, after: seq<byte>, offset: nat, size: nat)
  {
    && size <= |content| && offset + size <= |after|
    && forall q :: offset <= q < offset + size ==>
         after[q] == content[|content| - Min(size, ((q - offset) / 52428800 + 1) * 52428800) + (q - offset) % 52428800]
  }

  /**
   The bytes are in their places, and data that was long enough is otherwise as it was. Data that was not is lost, and then
   the bytes are all there is.
   */
  ghost predicate Landed(content: seq<byte>, data: Option<seq<byte>>, after: seq<byte>, offset: nat, size: nat)
  {
    && FromTail(content, after, offset, size)
    && (if data.Some? && size <= |data.value| then
          && |after| == |data.value| && after[..offset] == data.value[..offset]
          && after[offset + size..] == data.value[offset + size..]
        else |after| == size && offset == 0)
  }

  /**
   At this moment the bytes moved are in their places, and at least those have left the end of the file; nothing
   is committed before all are moved. So no byte is in both places, and a crash leaves none in both.
   */
  ghost predicate Safe(m: Moment, content: seq<byte>, data: Option<seq<byte>>, offset: nat, size: nat)
  {
    && m.moved <= size <= |content| && (m.moved > 0 ==> offset + m.moved <= |Base(data, size)|)
    && |m.file| <= |content| - m.moved && m.file == content[..|m.file|]
    && m.working == Filled(content, Base(data, size), offset, m.moved)
    && (m.committed == data || (m.moved == size && m.committed == Some(m.working)))
  }

  /** The moment after an event. */
  function Apply(m: Moment, x: Event): Moment
  {
    match x
    case Cut(keep) => if keep <= |m.file| then m.(file := m.file[..keep]) else m
    case Wrote(chunkId, offset, bytes) =>
      if offset + |bytes| > |m.working| then m
      else m.(working := Over(m.working, bytes, offset), moved := m.moved + |bytes|)
    case Committed => m.(committed := Some(m.working))
  }

  /** The moment after all of these events. */
  function Replay(m: Moment, events: seq<Event>): Moment
  {
    if events == [] then m else Apply(Replay(m, events[..|events| - 1]), events[|events| - 1])
  }

  /** The moment before the first block: the chunk has room, and nothing is moved. */
  function Before(content: seq<byte>, data: Option<seq<byte>>, size: nat): Moment
  {
    Moment(content, Base(data, size), data, 0)
  }

  /** The events that move what is left of `size` bytes: for each block one cut, then one write. */
  function Moves(content: seq<byte>, chunkId: nat, offset: nat, moved: nat, size: nat): seq<Event>
    requires moved <= size <= |content|
    decreases size - moved
  {
    if moved == size then []
    else
      var r := Min(MAXIMUM_READ_SIZE, size - moved);
      var end := |content| - moved - r;
      [Cut(end), Wrote(chunkId, offset + moved, content[end..end + r])]
      + Moves(content, chunkId, offset, moved + r, size)
  }

  /** All events of an import that succeeds. */
  function Script(content: seq<byte>, chunkId: nat, offset: nat, size: nat): seq<Event>
    requires size <= |content|
  {
    Moves(content, chunkId, offset, 0, size) + [Committed]
  }

  /** The moment after each of these events, and before them, is safe. */
  ghost predicate AllSafe(events: seq<Event>, content: seq<byte>, data: Option<seq<byte>>, offset: nat, size: nat)
  {
    forall n :: 0 <= n <= |events| ==> Safe(Replay(Before(content, data, size), events[..n]), content, data, offset, size)
  }

  /**
   The events of an import: a beginning of the script, all of it on success, safe throughout, and leaving the file as it
   is now.
   */
  ghost predicate Recorded(events: seq<Event>, code: Code, content: seq<byte>, data: Option<seq<byte>>, chunkId: nat,
                           offset: nat, size: nat, file: seq<byte>)
  {
    && size <= |content| && events <= Script(content, chunkId, offset, size)
    && (code == Ok ==> events == Script(content, chunkId, offset, size))
    && AllSafe(events, content, data, offset, size)
    && Replay(Before(content, data, size), events).file == file
  }

  lemma OneMoreEvent(events: seq<Event>, x: Event, content: seq<byte>, data: Option<seq<byte>>, offset: nat, size: nat)
    requires AllSafe(events, content, data, offset, size)
    ensures Replay(Before(content, data, size), events + [x]) == Apply(Replay(Before(content, data, size), events), x)
    ensures Safe(Replay(Before(content, data, size), events + [x]), content, data, offset, size) ==>
      AllSafe(events + [x], content, data, offset, size)
  {
    hide Safe, Apply, Replay, Before;
    ReplayNext(Before(content, data, size), events, x);
    var all := events + [x];
    if Safe(Replay(Before(content, data, size), all), content, data, offset, size) {
      forall n | 0 <= n <= |all|
        ensures Safe(Replay(Before(content, data, size), all[..n]), content, data, offset, size)
      {
        assert all[..n] == if n <= |events| then events[..n] else all;
      }
    }
  }

  lemma ReplayNext(m: Moment, events: seq<Event>, x: Event)
    ensures Replay(m, events + [x]) == Apply(Replay(m, events), x)
  {
    hide Apply;
    assert (events + [x])[..|events|] == events;
  }

  lemma BeforeSafe(content: seq<byte>, data: Option<seq<byte>>, offset: nat, size: nat)
    requires size <= |content|
    ensures AllSafe([], content, data, offset, size) && Replay(Before(content, data, size), []).file == content
  {
  }

  /** Writing the next block behind the ones moved already. */
  lemma NextBlock(content: seq<byte>, base: seq<byte>, offset: nat, moved: nat, r: nat)
    requires 0 < r <= MAXIMUM_READ_SIZE && moved + r <= |content| && Whole(moved, MAXIMUM_READ_SIZE)
    requires offset + moved + r <= |base|
    ensures var block := content[|content| - moved - r..|content| - moved];
      Filled(content, base, offset, moved + r) == Over(Filled(content, base, offset, moved), block, offset + moved)
  {
    hide BlockReverse;
    var tail := Tail(content, moved + r);
    AppendsBlock(tail, r, MAXIMUM_READ_SIZE);
    assert tail[r..] == Tail(content, moved) && tail[..r] == content[|content| - moved - r..|content| - moved];
    if moved == 0 {
      assert Tail(content, moved) == [] && BlockReverse([], MAXIMUM_READ_SIZE) + tail[..r] == tail[..r];
    } else {
      OverTwice(base, BlockReverse(Tail(content, moved), MAXIMUM_READ_SIZE), tail[..r], offset);
    }
  }

  lemma OverTwice(base: seq<byte>, first: seq<byte>, second: seq<byte>, offset: nat)
    requires offset + |first| + |second| <= |base|
    ensures Over(Over(base, first, offset), second, offset + |first|) == Over(base, first + second, offset)
  {
  }

  /** One round of the loop: read a block at the end of the file, cut it off, write it into the chunk. */
  method MoveBlock(file: PadFile, db: KeyDatabase, chunkId: nat, at: nat, readSize: nat, endOffset: nat)
    returns (code: Code, end: nat)
    requires file.journal == db.journal && db.open && chunkId in db.working && db.working[chunkId].Some?
    requires 0 < readSize <= endOffset == |file.content|
    modifies file, db`working, db`faults, db.journal
    ensures code == Ok ==>
      && end == endOffset - readSize && file.content == old(file.content)[..end]
      && at + readSize <= |old(db.working)[chunkId].value|
      && db.working == old(db.working)[
           chunkId := Some(Over(old(db.working)[chunkId].value, old(file.content)[end..], at))]
      && db.journal.events == old(db.journal.events) + [Cut(end), Wrote(chunkId, at, old(file.content)[end..])]
    ensures code != Ok ==> db.working == old(db.working)
    ensures code != Ok ==>
      || (file.content == old(file.content) && db.journal.events == old(db.journal.events))
      || (&& file.content == old(file.content)[..endOffset - readSize]
          && db.journal.events == old(db.journal.events) + [Cut(endOffset - readSize)])
    ensures old(file.faults) <= file.faults && old(db.faults) <= db.faults
    ensures code == Ok ==> file.faults == old(file.faults) && db.faults == old(db.faults)
    ensures file.faults == old(file.faults) && db.faults == old(db.faults) ==>
      && (code == Ok <==> at + readSize <= |old(db.working)[chunkId].value|)
      && (code != Ok ==> |file.content| < |old(file.content)|)
  {
    hide Over;
    end := endOffset;
    var bytes := file.ReadTail(readSize);
    if bytes == None {
      return FileFailure, end;
    }
    end := end - |bytes.value|;
    var ok := file.Truncate(end);
    if !ok {
      return FileFailure, end;
    }
    ok := db.WriteBlob(chunkId, bytes.value, at);
    return if ok then Ok else StoreFailure, end;
  }

  /**
   The loop. The file loses exactly the bytes asked for, from its end, and the chunk gains them in reverse order of
   blocks; when a step fails the file may have lost bytes, but nothing is committed. Every block is cut off before it
   is written. Without faults it fails exactly when the chunk is too small, and then bytes are lost.
   */
  method MoveBlocks(file: PadFile, db: KeyDatabase, chunkId: nat, offset: nat, size: nat, ghost data: Option<seq<byte>>)
    returns (code: Code, ghost events: seq<Event>)
    requires file.journal == db.journal && 0 < size <= |file.content| && db.open && chunkId in db.working
    requires db.working[chunkId] == Some(Base(data, size)) && chunkId in db.committed && db.committed[chunkId] == data
    modifies file, db`working, db`faults, db.journal
    ensures code == Ok ==>
      && file.content == old(file.content)[..|old(file.content)| - size] && offset + size <= |Base(data, size)|
      && db.working == old(db.working)[chunkId := Some(Filled(old(file.content), Base(data, size), offset, size))]
      && events == Moves(old(file.content), chunkId, offset, 0, size)
      && Replay(Before(old(file.content), data, size), events)
         == Moment(file.content, Filled(old(file.content), Base(data, size), offset, size), data, size)
    ensures code != Ok ==>
      && |old(file.content)| - size <= |file.content| <= |old(file.content)|
      && file.content == old(file.content)[..|file.content|]
    ensures db.journal.events == old(db.journal.events) + events
    ensures events <= Moves(old(file.content), chunkId, offset, 0, size)
    ensures AllSafe(events, old(file.content), data, offset, size)
    ensures Replay(Before(old(file.content), data, size), events).file == file.content
    ensures old(file.faults) <= file.faults && old(db.faults) <= db.faults
    ensures code == Ok ==> file.faults == old(file.faults) && db.faults == old(db.faults)
    ensures file.faults == old(file.faults) && db.faults == old(db.faults) ==>
      && (code == Ok <==> offset + size <= |Base(data, size)|)
      && (code != Ok ==> |file.content| < |old(file.content)|)
  {
    hide Filled, Base, Over, Whole, Moves, AllSafe, Replay, Before;
    ghost var content, base := file.content, Base(data, size);
    events := [];
    code := Ok;
    var left, at, readSize, endOffset := size, offset, Min(MAXIMUM_READ_SIZE, size), |file.content|;
    Start(content, data, offset, size);
    while left > 0
      invariant code == Ok && 0 <= left <= size && at == offset + (size - left) && endOffset == |content| - (size - left)
      invariant readSize == Min(MAXIMUM_READ_SIZE, left) && (left == 0 || Whole(size - left, MAXIMUM_READ_SIZE))
      invariant file.content == content[..endOffset] && (left < size ==> at <= |base|)
      invariant db.working == old(db.working)[chunkId := Some(Filled(content, base, offset, size - left))]
      invariant db.journal.events == old(db.journal.events) + events
      invariant events + Moves(content, chunkId, offset, size - left, size) == Moves(content, chunkId, offset, 0, size)
      invariant AllSafe(events, content, data, offset, size)
      invariant Replay(Before(content, data, size), events)
                == Moment(file.content, Filled(content, base, offset, size - left), data, size - left)
      invariant file.faults == old(file.faults) && db.faults == old(db.faults)
    {
      ghost var moved := size - left;
      code, endOffset := MoveBlock(file, db, chunkId, at, readSize, endOffset);
      if code != Ok {
        if file.content != content[..|content| - moved] {
          BlockCut(events, content, data, chunkId, offset, moved, size);
          events := events + [Cut(|content| - moved - readSize)];
        }
        return;
      }
      BlockMoved(events, content, data, chunkId, offset, moved, size);
      events := events + [Cut(endOffset), Wrote(chunkId, at, content[endOffset..endOffset + readSize])];
      NextBlock(content, base, offset, moved, readSize);
      at := at + readSize;
      left := left - readSize;
      if left < readSize {
        readSize := left;
      }
      WholeGrows(moved, MAXIMUM_READ_SIZE);
    }
    assert events + [] == events;
  }

  /** A block has been cut off. */
  lemma BlockCut(events: seq<Event>, content: seq<byte>, data: Option<seq<byte>>, chunkId: nat, offset: nat,
                 moved: nat, size: nat)
    requires moved < size <= |content| && (moved > 0 ==> offset + moved <= |Base(data, size)|)
    requires AllSafe(events, content, data, offset, size)
    requires events + Moves(content, chunkId, offset, moved, size) == Moves(content, chunkId, offset, 0, size)
    requires Replay(Before(content, data, size), events)
             == Moment(content[..|content| - moved], Filled(content, Base(data, size), offset, moved), data, moved)
    ensures var end := |content| - moved - Min(MAXIMUM_READ_SIZE, size - moved);
      && AllSafe(events + [Cut(end)], content, data, offset, size)
      && events + [Cut(end)] <= Moves(content, chunkId, offset, 0, size)
      && Replay(Before(content, data, size), events + [Cut(end)])
         == Moment(content[..end], Filled(content, Base(data, size), offset, moved), data, moved)
  {
    hide Filled, Base, AllSafe, Replay, Before;
    var end := |content| - moved - Min(MAXIMUM_READ_SIZE, size - moved);
    OneMoreEvent(events, Cut(end), content, data, offset, size);
    assert content[..|content| - moved][..end] == content[..end];
    assert Moves(content, chunkId, offset, moved, size)[0] == Cut(end);
    assert (events + Moves(content, chunkId, offset, moved, size))[..|events| + 1] == events + [Cut(end)];
  }

  /** A block has been cut off and written. */
  lemma BlockMoved(events: seq<Event>, content: seq<byte>, data: Option<seq<byte>>, chunkId: nat, offset: nat,
                   moved: nat, size: nat)
    requires moved < size <= |content| && Whole(moved, MAXIMUM_READ_SIZE)
    requires AllSafe(events, content, data, offset, size)
    requires events + Moves(content, chunkId, offset, moved, size) == Moves(content, chunkId, offset, 0, size)
    requires offset + moved + Min(MAXIMUM_READ_SIZE, size - moved) <= |Base(data, size)|
    requires Replay(Before(content, data, size), events)
             == Moment(content[..|content| - moved], Filled(content, Base(data, size), offset, moved), data, moved)
    ensures var r := Min(MAXIMUM_READ_SIZE, size - moved);
      var end := |content| - moved - r;
      var more := [Cut(end), Wrote(chunkId, offset + moved, content[end..end + r])];
      && AllSafe(events + more, content, data, offset, size)
      && events + more + Moves(content, chunkId, offset, moved + r, size) == Moves(content, chunkId, offset, 0, size)
      && Replay(Before(content, data, size), events + more)
         == Moment(content[..end], Filled(content, Base(data, size), offset, moved + r), data, moved + r)
  {
    hide Filled, Base, Over, AllSafe, Replay, Before, Whole;
    var r := Min(MAXIMUM_READ_SIZE, size - moved);
    var end := |content| - moved - r;
    var wrote := Wrote(chunkId, offset + moved, content[end..end + r]);
    BlockCut(events, content, data, chunkId, offset, moved, size);
    OneMoreEvent(events + [Cut(end)], wrote, content, data, offset, size);
    NextBlock(content, Base(data, size), offset, moved, r);
    assert events + [Cut(end), wrote] == events + [Cut(end)] + [wrote];
    assert events + ([Cut(end), wrote] + Moves(content, chunkId, offset, moved + r, size))
           == events + [Cut(end), wrote] + Moves(content, chunkId, offset, moved + r, size);
  }

  lemma WholeGrows(n: nat, block: nat)
    requires block > 0 && Whole(n, block)
    ensures Whole(n + block, block)
  {
  }

  lemma Start(content: seq<byte>, data: Option<seq<byte>>, offset: nat, size: nat)
    requires size <= |content|
    ensures Filled(content, Base(data, size), offset, 0) == Base(data, size)
    ensures Whole(0, MAXIMUM_READ_SIZE) && AllSafe([], content, data, offset, size)
    ensures Replay(Before(content, data, size), []) == Moment(content, Base(data, size), data, 0)
    ensures forall chunkId :: Moves(content, chunkId, offset, size, size) == []
  {
    BeforeSafe(content, data, offset, size);
  }

  /**
   Imports the last `size` bytes of the file into the chunk, at `offset`. On success the file has lost exactly those
   bytes and the chunk holds them, block by block from the end, with the rest of its data as it was. On failure the
   committed chunks are as they were, and the file may have lost bytes from its end: a byte is lost, never kept twice.
   The journal shows that this is so at every moment in between, too.
   */
  method ImportChunk(s: Importer, file: PadFile, db: KeyDatabase, chunkId: nat, offset: nat, size: nat)
    returns (code: Code, ghost events: seq<Event>)
    requires !s.transaction && db.Settled() && file.journal == db.journal
    modifies s`transaction, file, db, db.journal
    ensures !s.transaction && db.Settled()
    ensures ImportStatus(s, chunkId, offset, size) != Ok ==> code == ImportStatus(s, chunkId, offset, size)
    ensures code == Ok ==>
      && size <= |old(file.content)| && file.content == old(file.content)[..|old(file.content)| - size]
      && chunkId in old(db.committed)
      && var base := Base(old(db.committed)[chunkId], size);
      && offset + size <= |base|
      && db.committed == old(db.committed)[chunkId := Some(Filled(old(file.content), base, offset, size))]
    ensures code == Ok ==>
      && chunkId in old(db.committed) && chunkId in db.committed && db.committed[chunkId].Some?
      && Landed(old(file.content), old(db.committed)[chunkId], db.committed[chunkId].value, offset, size)
    ensures code != Ok ==>
      && db.committed == old(db.committed)
      && |old(file.content)| - size <= |file.content| <= |old(file.content)|
      && file.content == old(file.content)[..|file.content|]
    ensures db.journal.events == old(db.journal.events) + events
    ensures code == Ok ==> file.faults == old(file.faults) && db.faults == old(db.faults)
    ensures ImportStatus(s, chunkId, offset, size) != Ok || size > |old(file.content)| || chunkId !in old(db.committed) ==>
      code != Ok && file.content == old(file.content) && events == []
    ensures size <= |old(file.content)| && chunkId in old(db.committed) ==>
      Recorded(events, code, old(file.content), old(db.committed)[chunkId], chunkId, offset, size, file.content)
    ensures file.faults == old(file.faults) && db.faults == old(db.faults)
            && ImportStatus(s, chunkId, offset, size) == Ok && size <= |old(file.content)| && chunkId in old(db.committed) ==>
            && (code == Ok <==>
                  var data := old(db.committed)[chunkId]; offset == 0 || (data.Some? && offset + size <= |data.value|))
            && (code != Ok ==> |file.content| < |old(file.content)|)
  {
    hide Filled, Base, AllSafe, Script, Landed;
    if size <= |file.content| && chunkId in db.committed {
      BaseRoom(db.committed[chunkId], offset, size);
      ImportLands(file.content, db.committed[chunkId], offset, size);
    }
    events := [];
    if size <= |file.content| && chunkId in db.committed {
      BeforeSafe(file.content, db.committed[chunkId], offset, size);
    }
    code := ImportStatus(s, chunkId, offset, size);
    if code != Ok {
      return;
    }
    if |file.content| < size {
      return InsufficientKeyBytesRemain, events;
    }
    var ok := db.Begin();
    if !ok {
      return StoreFailure, events;
    }
    s.transaction := true;
    code, events := ImportInTransaction(file, db, chunkId, offset, size);
    if code != Ok {
      db.Close();
    }
    s.transaction := false;
  }

  /** When there is room for the bytes: at the front, or inside data that is there already. */
  lemma BaseRoom(data: Option<seq<byte>>, offset: nat, size: nat)
    ensures offset + size <= |Base(data, size)| <==> offset == 0 || (data.Some? && offset + size <= |data.value|)
  {
  }

  lemma ImportLands(content: seq<byte>, data: Option<seq<byte>>, offset: nat, size: nat)
    requires size <= |content|
    ensures offset + size <= |Base(data, size)| ==>
      Landed(content, data, Filled(content, Base(data, size), offset, size), offset, size)
  {
    hide Base, Filled, FromTail;
    if offset + size <= |Base(data, size)| {
      BytesLand(content, Base(data, size), offset, size);
      RestStays(content, data, offset, size);
    }
  }

  lemma RestStays(content: seq<byte>, data: Option<seq<byte>>, offset: nat, size: nat)
    requires size <= |content| && offset + size <= |Base(data, size)|
    ensures var after := Filled(content, Base(data, size), offset, size);
      if data.Some? && size <= |data.value| then
        && |after| == |data.value| && after[..offset] == data.value[..offset]
        && after[offset + size..] == data.value[offset + size..]
      else |after| == size && offset == 0
  {
    hide BlockReverse;
  }

  lemma BytesLand(content: seq<byte>, base: seq<byte>, offset: nat, size: nat)
    requires size <= |content| && offset + size <= |base|
    ensures FromTail(content, Filled(content, base, offset, size), offset, size)
  {
    if size > 0 {
      hide BlockReverse;
      var tail := Tail(content, size);
      var blocks := BlockReverse(tail, MAXIMUM_READ_SIZE);
      forall q | offset <= q < offset + size
        ensures Filled(content, base, offset, size)[q]
                == content[|content| - Min(size, ((q - offset) / 52428800 + 1) * 52428800) + (q - offset) % 52428800]
      {
        BlockReverseAt(tail, MAXIMUM_READ_SIZE, q - offset);
        assert Filled(content, base, offset, size)[q] == blocks[q - offset];
      }
    }
  }

  /** The part of the import between opening the transaction and closing the database. */
  method ImportInTransaction(file: PadFile, db: KeyDatabase, chunkId: nat, offset: nat, size: nat)
    returns (code: Code, ghost events: seq<Event>)
    requires file.journal == db.journal && 0 < size <= |file.content| && db.open && db.working == db.committed
    modifies file, db, db.journal
    ensures code == Ok ==>
      && db.Settled() && file.content == old(file.content)[..|old(file.content)| - size]
      && chunkId in old(db.committed)
      && var base := Base(old(db.committed)[chunkId], size);
      && offset + size <= |base|
      && db.committed == old(db.committed)[chunkId := Some(Filled(old(file.content), base, offset, size))]
    ensures code != Ok ==>
      && db.committed == old(db.committed)
      && |old(file.content)| - size <= |file.content| <= |old(file.content)|
      && file.content == old(file.content)[..|file.content|]
    ensures db.journal.events == old(db.journal.events) + events
    ensures chunkId !in old(db.committed) ==> code != Ok && file.content == old(file.content) && events == []
    ensures chunkId in old(db.committed) ==>
      Recorded(events, code, old(file.content), old(db.committed)[chunkId], chunkId, offset, size, file.content)
    ensures old(file.faults) <= file.faults && old(db.faults) <= db.faults
    ensures code == Ok ==> file.faults == old(file.faults) && db.faults == old(db.faults)
    ensures file.faults == old(file.faults) && db.faults == old(db.faults) && chunkId in old(db.committed) ==>
      && (code == Ok <==> offset + size <= |Base(old(db.committed)[chunkId], size)|)
      && (code != Ok ==> |file.content| < |old(file.content)|)
  {
    hide Filled, Base, AllSafe, Moves, Replay;
    events := [];
    if chunkId in db.committed {
      BeforeSafe(file.content, db.committed[chunkId], offset, size);
    }
    var ok := db.UpdateZeroBlob(chunkId, size);
    if !ok {
      return StoreFailure, events;
    }
    ok := db.OpenBlob(chunkId);
    if !ok {
      return StoreFailure, events;
    }
    ghost var content, data := file.content, db.committed[chunkId];
    code, events := MoveBlocks(file, db, chunkId, offset, size, data);
    if code != Ok {
      return;
    }
    ok := db.CloseBlob();
    if !ok {
      return StoreFailure, events;
    }
    ok := db.Commit();
    if !ok {
      return StoreFailure, events;
    }
    CommitSafe(events, content, data, offset, size);
    events := events + [Committed];
  }

  lemma CommitSafe(events: seq<Event>, content: seq<byte>, data: Option<seq<byte>>, offset: nat, size: nat)
    requires size <= |content| && offset + size <= |Base(data, size)| && AllSafe(events, content, data, offset, size)
    requires Replay(Before(content, data, size), events)
             == Moment(content[..|content| - size], Filled(content, Base(data, size), offset, size), data, size)
    ensures AllSafe(events + [Committed], content, data, offset, size)
    ensures Replay(Before(content, data, size), events + [Committed]).file == content[..|content| - size]
  {
    hide Filled, Base, AllSafe, Replay, Before;
    OneMoreEvent(events, Committed, content, data, offset, size);
  }

  /**
   Two imports into disjoint ranges of one chunk, from one file or from two: what the first has put in its place is still
   there after the second, whether or not that one succeeds.
   */
  method ImportTwice(s: Importer, file: PadFile, next: PadFile, db: KeyDatabase, chunkId: nat, offset: nat, size: nat,
                     offset': nat, size': nat) returns (first: Code, second: Code, ghost rest: seq<byte>)
    requires !s.transaction && db.Settled() && file.journal == next.journal == db.journal
    requires offset + size <= offset' || offset' + size' <= offset
    modifies s`transaction, file, next, db, db.journal
    ensures first == Ok ==>
      && chunkId in db.committed && db.committed[chunkId].Some?
      && FromTail(old(file.content), db.committed[chunkId].value, offset, size)
    ensures second == Ok ==>
      && chunkId in db.committed && db.committed[chunkId].Some?
      && FromTail(rest, db.committed[chunkId].value, offset', size')
    ensures next != file ==> rest == old(next.content)
    ensures next == file && first == Ok ==> rest == old(file.content)[..|old(file.content)| - size]
  {
    hide Filled, Base, Recorded, FromTail;
    ghost var events, events', content := [], [], file.content;
    first, events := ImportChunk(s, file, db, chunkId, offset, size);
    rest := next.content;
    ghost var middle := db.committed;
    second, events' := ImportChunk(s, next, db, chunkId, offset', size');
    if first == Ok && second == Ok {
      StaysLanded(content, middle[chunkId], db.committed[chunkId].value, rest, offset, size, offset', size');
    }
  }

  /** Bytes outside the range of an import stay as they are. */
  lemma StaysLanded(content: seq<byte>, before: Option<seq<byte>>, after: seq<byte>, rest: seq<byte>, offset: nat, size: nat,
                    offset': nat, size': nat)
    requires before.Some? && FromTail(content, before.value, offset, size) && Landed(rest, before, after, offset', size')
    requires size > 0 && size' > 0 && (offset + size <= offset' || offset' + size' <= offset)
    ensures FromTail(content, after, offset, size)
  {
    var data := before.value;
    assert size' <= |data|;
    forall q | offset <= q < offset + size
      ensures after[q] == data[q]
    {
      if q < offset' {
        assert after[..offset'][q] == data[..offset'][q];
      } else {
        assert after[offset' + size'..][q - offset' - size'] == data[offset' + size'..][q - offset' - size'];
      }
    }
  }
}
