/** Headers sent as differences from the previous header. */
module Delta {
  import opened Results
  import opened Bytes
  import opened Words
  import opened Headers
  import opened HeaderCodec

  /** The offset without its low 16 bits, and the offset with the given low 16 bits instead. */
  function HighPart(v: uint64): uint64
  {
    v / 0x1_0000 * 0x1_0000
  }

  function Rejoin(low: uint64, previous: uint64): uint64
  {
    PowersOfTwo();
    OrBelow(low, HighPart(previous), 64);
    Or(low, HighPart(previous))
  }

  /** Whether a header can shrink to the flags word alone. */
  predicate CanBeInternal(h: Header, previous: Header)
  {
    && HighPart(h.offset) == HighPart(previous.offset) && h.compression == previous.compression
    && h.keyChecksum == 0 && h.textChecksum == 0
  }

  /** The header without what the previous one already said. */
  function Collapse(h: Header, previous: Header, singlePacket: bool): Header
  {
    if !previous.initialized then h
    else if singlePacket && CanBeInternal(h, previous) then
      h.(key := Unless(h.key == previous.key, h.key, GUID_NULL),
         length := 0,
         algorithm := Unless(h.algorithm == previous.algorithm, h.algorithm, 0),
         isInternal := true, compression := 0, keyChecksum := 0, textChecksum := 0)
    else
      h.(key := Unless(h.key == previous.key, h.key, GUID_NULL),
         length := Unless(h.length == previous.length, h.length, 0),
         algorithm := Unless(h.algorithm == previous.algorithm, h.algorithm, 0))
  }

  function Unless<T>(same: bool, value: T, blank: T): T
  {
    if same then blank else value
  }

  /** The size of the packet less the flags word, in 64 bits. */
  function BodyLength(sizePacket: uint64): uint64
  {
    (sizePacket + 0xFFFF_FFFF_FFFF_FFFC) % 0x1_0000_0000_0000_0000
  }

  /** The header with what is missing taken from the previous one. */
  function Expand(h: Header, previous: Header, sizePacket: uint64): Header
  {
    if !previous.initialized then h
    else
      var e := if !h.isInternal then h
               else h.(compression := previous.compression, offset := Rejoin(h.offset, previous.offset),
                       length := BodyLength(sizePacket));
      e.(key := if e.key == GUID_NULL then previous.key else e.key,
         length := if e.length == 0 then previous.length else e.length,
         compression := if e.compression == 0 then previous.compression else e.compression,
         algorithm := if e.algorithm == 0 then previous.algorithm else e.algorithm)
  }

  /** Blanks the fields that repeat the previous header. */
  method BlankRepeated(h: CipherTextHeader, previous: CipherTextHeader)
    requires h != previous
    modifies h`key, h`length, h`algorithm
    ensures h.key == Unless(old(h.key) == previous.key, old(h.key), GUID_NULL)
    ensures h.length == Unless(old(h.length) == previous.length, old(h.length), 0)
    ensures h.algorithm == Unless(old(h.algorithm) == previous.algorithm, old(h.algorithm), 0)
  {
    if h.key == previous.key {
      h.key := GUID_NULL;
    }
    if h.length == previous.length {
      h.length := 0;
    }
    if h.algorithm == previous.algorithm {
      h.algorithm := 0;
    }
  }

  method MakeInternal(h: CipherTextHeader)
    modifies h`isInternal, h`length, h`compression, h`keyChecksum, h`textChecksum
    ensures h.isInternal && h.length == 0 && h.compression == 0 && h.keyChecksum == 0 && h.textChecksum == 0
  {
    h.isInternal := true;
    h.length := 0;
    h.compression := 0;
    h.keyChecksum := 0;
    h.textChecksum := 0;
  }

  method CollapseStructure(h: CipherTextHeader, previous: CipherTextHeader, singlePacket: bool)
    requires h != previous
    modifies h
    ensures h.Value() == Collapse(old(h.Value()), previous.Value(), singlePacket)
  {
    hide HighPart, Unless;
    if previous.initialized {
      BlankRepeated(h, previous);
      if singlePacket {
        var canBeInternal := HighPart(h.offset) == HighPart(previous.offset);
        canBeInternal := canBeInternal && h.compression == previous.compression;
        canBeInternal := canBeInternal && h.keyChecksum == 0;
        canBeInternal := canBeInternal && h.textChecksum == 0;
        if canBeInternal {
          MakeInternal(h);
        }
      }
    }
  }

  /** Fills in what an internal header leaves out. */
  method FillInternal(h: CipherTextHeader, previous: CipherTextHeader, sizePacket: uint64)
    requires h != previous
    modifies h`compression, h`offset, h`length
    ensures h.compression == previous.compression && h.offset == Rejoin(old(h.offset), previous.offset)
    ensures h.length == BodyLength(sizePacket)
  {
    hide Rejoin, BodyLength;
    h.compression := previous.compression;
    h.offset := Rejoin(h.offset, previous.offset);
    h.length := BodyLength(sizePacket);
  }

  /** Fills in the fields that repeat the previous header. */
  method FillRepeated(h: CipherTextHeader, previous: CipherTextHeader)
    requires h != previous
    modifies h`key, h`length, h`compression, h`algorithm
    ensures h.key == Unless(old(h.key) == GUID_NULL, old(h.key), previous.key)
    ensures h.length == Unless(old(h.length) == 0, old(h.length), previous.length)
    ensures h.compression == Unless(old(h.compression) == 0, old(h.compression), previous.compression)
    ensures h.algorithm == Unless(old(h.algorithm) == 0, old(h.algorithm), previous.algorithm)
  {
    if h.key == GUID_NULL {
      h.key := previous.key;
    }
    if h.length == 0 {
      h.length := previous.length;
    }
    if h.compression == 0 {
      h.compression := previous.compression;
    }
    if h.algorithm == 0 {
      h.algorithm := previous.algorithm;
    }
  }

  method ExpandStructure(h: CipherTextHeader, previous: CipherTextHeader, sizePacket: uint64)
    requires h != previous
    modifies h
    ensures h.Value() == Expand(old(h.Value()), previous.Value(), sizePacket)
  {
    hide Rejoin, BodyLength;
    if previous.initialized {
      if h.isInternal {
        FillInternal(h, previous, sizePacket);
      }
      FillRepeated(h, previous);
    }
  }

  /** A header and the cipher text it announces, as the sender holds them. */
  datatype Message = Message(header: Header, body: seq<byte>)

  predicate Sendable(m: Message)
  {
    && m.header.initialized && !m.header.isInternal
    && |m.body| < 0x1_0000_0000_0000_0000 - 57 && m.header.length == |m.body|
  }

  /** What goes over the wire for a message. */
  function Packet(m: Message, previous: Header, singlePacket: bool, order: ByteOrder): seq<byte>
  {
    Encode(Collapse(m.header, previous, singlePacket), order) + m.body
  }

  /** The header the receiver reconstructs from a packet. */
  function Received(packet: seq<byte>, previous: Header, order: ByteOrder): Option<Header>
    requires |packet| < 0x1_0000_0000_0000_0000
  {
    match Decode(packet, order)
    case Short => None
    case Decoded(h, n) => Some(Expand(h, previous, |packet|))
  }

  /** Equal up to the internal flag. */
  predicate Agree(a: Header, b: Header)
  {
    a.(isInternal := false) == b.(isInternal := false)
  }

  /** The headers that survive the trip when the previous header is `previous`. */
  predicate Survives(h: Header, previous: Header, singlePacket: bool)
  {
    if !previous.initialized then Encodable(h)
    else
      && (h.kernel == GUID_NULL ==> h.waldo == 0) && h.compression == previous.compression
      && h.keyChecksum == 0 && h.textChecksum == 0
      && (h.length == 0 ==> previous.length == 0)
      && if singlePacket && HighPart(h.offset) == HighPart(previous.offset) then
           && h.key == previous.key && h.algorithm == previous.algorithm && h.kernel == GUID_NULL
           && !h.decryptOnce && !h.verifyKey && !h.endChain && !h.trailer
         else
           && (h.key == GUID_NULL ==> previous.key == GUID_NULL)
           && (h.algorithm != previous.algorithm ==> h.algorithm != 0 && h.algorithm < 0x100)
  }

  /**
   One message: the receiver rebuilds the sender's header for these headers and no others, when the two sides
   agree on the previous one.
   */
  lemma StepSurvives(m: Message, previous: Header, theirs: Header, singlePacket: bool, order: ByteOrder)
    requires Sendable(m) && Agree(previous, theirs)
    ensures var packet := Packet(m, previous, singlePacket, order);
      && |packet| < 0x1_0000_0000_0000_0000
      && Received(packet, theirs, order).Some?
      && (Agree(Received(packet, theirs, order).value, m.header) <==> Survives(m.header, previous, singlePacket))
  {
    hide HighPart, Survives, Expand, Agree, Encode, Decode, Kept;
    var c := Collapse(m.header, previous, singlePacket);
    EncodedSize(c, order);
    DecodesKept(c, m.body, order);
    if !previous.initialized {
      FirstSurvives(m.header, previous, theirs, singlePacket, |Packet(m, previous, singlePacket, order)|);
    } else if c.isInternal {
      InternalSurvives(m.header, previous, theirs, singlePacket);
    } else {
      OpenSurvives(m.header, previous, theirs, singlePacket, |Packet(m, previous, singlePacket, order)|);
    }
  }

  lemma InternalSurvives(h: Header, previous: Header, theirs: Header, singlePacket: bool)
    requires h.initialized && !h.isInternal && Agree(previous, theirs) && h.length < 0x1_0000_0000_0000_0000 - 57
    requires Collapse(h, previous, singlePacket).isInternal
    ensures Agree(Expand(Kept(Collapse(h, previous, singlePacket)), theirs, FLAGS_SIZE + h.length), h)
            <==> Survives(h, previous, singlePacket)
  {
    hide HighPart, Rejoin, BodyLength, LowHalf;
    OffsetRejoins(h.offset, previous.offset);
    InternalLength(h.length);
  }

  lemma FirstSurvives(h: Header, previous: Header, theirs: Header, singlePacket: bool, sizePacket: uint64)
    requires h.initialized && !h.isInternal && Agree(previous, theirs) && !previous.initialized
    ensures !Collapse(h, previous, singlePacket).isInternal
    ensures Agree(Expand(Kept(Collapse(h, previous, singlePacket)), theirs, sizePacket), h)
            <==> Survives(h, previous, singlePacket)
  {
  }

  lemma OpenSurvives(h: Header, previous: Header, theirs: Header, singlePacket: bool, sizePacket: uint64)
    requires h.initialized && !h.isInternal && Agree(previous, theirs) && previous.initialized
    requires !Collapse(h, previous, singlePacket).isInternal
    ensures Agree(Expand(Kept(Collapse(h, previous, singlePacket)), theirs, sizePacket), h)
            <==> Survives(h, previous, singlePacket)
  {
    hide HighPart, Rejoin, BodyLength, LowHalf;
  }

  lemma OffsetRejoins(offset: uint64, previous: uint64)
    ensures HighPart(offset) == HighPart(previous) ==> Rejoin(LowHalf(offset), previous) == offset
  {
    var low, high := LowHalf(offset), previous / 0x1_0000;
    PowersOfTwo();
    OrJoins(low, high, 16);
    ShiftHalf(high);
  }

  lemma InternalLength(n: nat)
    requires n + FLAGS_SIZE < 0x1_0000_0000_0000_0000
    ensures BodyLength(FLAGS_SIZE + n) == n
  {
  }

  /** What the receiver reconstructs from a stream of packets, each header becoming the previous one in turn. */
  function ReceiveAll(ms: seq<Message>, previous: Header, theirs: Header, singlePacket: bool, order: ByteOrder): seq<Header>
    requires forall m :: m in ms ==> Sendable(m)
  {
    if ms == [] then []
    else
      assert Sendable(ms[0]);
      var packet := Packet(ms[0], previous, singlePacket, order);
      EncodedSize(Collapse(ms[0].header, previous, singlePacket), order);
      match Received(packet, theirs, order)
      case None => []
      case Some(h) => [h] + ReceiveAll(ms[1..], ms[0].header, h, singlePacket, order)
  }

  /** Every header survives given the one before it. */
  predicate AllSurvive(ms: seq<Message>, previous: Header, singlePacket: bool)
  {
    ms == [] || (Survives(ms[0].header, previous, singlePacket) && AllSurvive(ms[1..], ms[0].header, singlePacket))
  }

  predicate AllAgree(hs: seq<Header>, ms: seq<Message>)
  {
    |hs| == |ms| && forall i :: 0 <= i < |hs| ==> Agree(hs[i], ms[i].header)
  }

  /**
   Over a lossless stream the receiver rebuilds every header of the sender exactly when each survives given the
   one before it. Both sides then agree on the previous header at every step.
   */
  lemma {:induction false} StreamInSync(ms: seq<Message>, previous: Header, theirs: Header, singlePacket: bool,
                                        order: ByteOrder)
    requires forall m :: m in ms ==> Sendable(m)
    requires Agree(previous, theirs)
    ensures AllAgree(ReceiveAll(ms, previous, theirs, singlePacket, order), ms) <==> AllSurvive(ms, previous, singlePacket)
  {
    hide Survives, Agree, Packet, Received, Sendable;
    if ms != [] {
      StepSurvives(ms[0], previous, theirs, singlePacket, order);
      var h := Received(Packet(ms[0], previous, singlePacket, order), theirs, order).value;
      var rest := ReceiveAll(ms[1..], ms[0].header, h, singlePacket, order);
      assert ReceiveAll(ms, previous, theirs, singlePacket, order) == [h] + rest;
      if Agree(h, ms[0].header) {
        AgreeSwaps(h, ms[0].header);
        StreamInSync(ms[1..], ms[0].header, h, singlePacket, order);
        AgreeHead(h, rest, ms);
      } else {
        assert ([h] + rest)[0] == h;
      }
    }
  }

  lemma AgreeSwaps(a: Header, b: Header)
    ensures Agree(a, b) ==> Agree(b, a)
  {
  }

  lemma AgreeHead(h: Header, rest: seq<Header>, ms: seq<Message>)
    requires ms != [] && Agree(h, ms[0].header)
    ensures AllAgree([h] + rest, ms) <==> AllAgree(rest, ms[1..])
  {
    hide Agree;
    var hs := [h] + rest;
    if AllAgree(hs, ms) {
      forall i | 0 <= i < |rest|
        ensures Agree(rest[i], ms[1..][i].header)
      {
        assert Agree(hs[i + 1], ms[i + 1].header);
      }
    }
  }

  /**
   The streams of the sound path: one key, one algorithm, no checksums or per-message flags, no empty bodies.
   They stay in sync in either mode.
   */
  predicate Plain(h: Header, first: Header)
  {
    && h == first.(offset := h.offset, length := h.length)
    && h.length != 0 && h.kernel == GUID_NULL && Encodable(h)
    && !h.decryptOnce && !h.verifyKey && !h.endChain && !h.trailer
  }

  lemma {:induction false} PlainStreamSurvives(ms: seq<Message>, first: Header, previous: Header, singlePacket: bool)
    requires forall m :: m in ms ==> Sendable(m) && Plain(m.header, first)
    requires previous.initialized ==> Plain(previous, first)
    ensures AllSurvive(ms, previous, singlePacket)
  {
    if ms != [] {
      assert Sendable(ms[0]) && Plain(ms[0].header, first);
      PlainSurvives(ms[0].header, first, previous, singlePacket);
      PlainStreamSurvives(ms[1..], first, ms[0].header, singlePacket);
    }
  }

  lemma PlainSurvives(h: Header, first: Header, previous: Header, singlePacket: bool)
    requires h.initialized && !h.isInternal && Plain(h, first) && (previous.initialized ==> Plain(previous, first))
    ensures Survives(h, previous, singlePacket)
  {
  }

  /** Collapsing never makes the encoded header longer; an internal header is four bytes. */
  lemma CollapseShrinks(h: Header, previous: Header, singlePacket: bool, order: ByteOrder)
    requires !h.isInternal
    ensures |Encode(Collapse(h, previous, singlePacket), order)| <= |Encode(h, order)|
    ensures previous.initialized && singlePacket && CanBeInternal(h, previous) ==>
      |Encode(Collapse(h, previous, singlePacket), order)| == FLAGS_SIZE
  {
    hide FlagWord, InternalWord, FlagBytes, NumberBytes, Image32, HighPart;
  }
}
