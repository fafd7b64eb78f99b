/** Messages: a header that says which key range was used, followed by the cipher text. */
module Protocol {
  import opened Results
  import opened Bytes
  import opened Words
  import opened Headers
  import opened HeaderCodec
  import opened Guids
  import opened Keys
  import opened Ledger
  import opened Sessions
  import opened Allocator
  import opened Cache
  import Engine

  /** Room reserved for a header: the size of the header structure in memory. */
  const HEADER_SPACE := 112

  class AcpSession {
    const kernel: Session
    const provider: seq<seq<KeyId>>      // the keys listed by each keyset of the provider
    const order: ByteOrder
    var guid: Guid                       // identifier of the session key
    var body: array?<byte>               // kept for the next message
    var bodySize: nat
    var previous: Header
    ghost var choices: nat               // how often the session has gone looking for a key

    constructor (kernel: Session, provider: seq<seq<KeyId>>, order: ByteOrder)
      requires kernel.Valid() && PadsFit(kernel)
      ensures Valid() && this.kernel == kernel && this.provider == provider && this.order == order
      ensures guid == GUID_NULL && body == null && previous == ZERO && choices == 0
    {
      this.kernel, this.provider, this.order := kernel, provider, order;
      guid, body, bodySize, previous, choices := GUID_NULL, null, 0, ZERO, 0;
    }

    ghost predicate Valid()
      reads this, kernel, kernel.db
    {
      && kernel.Valid() && PadsFit(kernel) && bodySize <= INT_MAX
      && if body == null then bodySize == 0 else bodySize <= body.Length
    }
  }

  /** Every offset into a pad fits the header's field. */
  ghost predicate PadsFit(kernel: Session)
  {
    forall k :: k in kernel.pads ==> |kernel.pads[k]| < 0x1_0000_0000_0000_0000
  }

  /** Some keyset of the provider lists the key. */
  predicate Listed(provider: seq<seq<KeyId>>, id: KeyId)
  {
    exists p :: 0 <= p < |provider| && id in provider[p]
  }

  /** The first keyset of the provider that lists the key. */
  method FindKeySet(provider: seq<seq<KeyId>>, id: KeyId) returns (found: Option<nat>)
    ensures found.Some? <==> Listed(provider, id)
    ensures found.Some? ==> found.value < |provider| && id in provider[found.value]
    ensures found.Some? ==> forall q :: 0 <= q < found.value ==> id !in provider[q]
  {
    var p := 0;
    found := None;
    while p < |provider| && found == None
      invariant 0 <= p <= |provider|
      invariant found == None ==> forall q :: 0 <= q < p ==> id !in provider[q]
      invariant found.Some? ==> found.value < |provider| && id in provider[found.value]
      invariant found.Some? ==> forall q :: 0 <= q < found.value ==> id !in provider[q]
      decreases |provider| - p, if found == None then 1 else 0
    {
      var index := 0;
      while index < |provider[p]| && found == None
        invariant 0 <= index <= |provider[p]|
        invariant found == None ==> id !in provider[p][..index]
        invariant found.Some? ==> found.value == p && id in provider[p]
        decreases |provider[p]| - index, if found == None then 1 else 0
      {
        if provider[p][index] == id {
          found := Some(p);
        } else {
          index := index + 1;
        }
      }
      if found == None {
        p := p + 1;
      }
    }
  }

  /**
   Finds the keyset that lists the key, mounts it, and makes the key the session's. A session mounts one keyset
   in its life: once one is mounted, no other key can be chosen.
   */
  method SetSessionKey(s: AcpSession, id: KeyId) returns (code: Code)
    requires s.Valid()
    modifies s`guid, s`choices, s.kernel`mounted, s.kernel`keyId, s.kernel.db`faults
    ensures s.Valid() && s.kernel.View() == old(s.kernel.View()) && old(s.kernel.db.faults) <= s.kernel.db.faults
    ensures s.choices == old(s.choices) + 1
    ensures !Listed(s.provider, id) ==> code == KeyNotFound && s.kernel.mounted == old(s.kernel.mounted)
    ensures Listed(s.provider, id) && old(s.kernel.mounted) ==> code == MountedDatabase && s.kernel.mounted
    ensures code == Ok ==> s.kernel.mounted && s.kernel.keyId == Some(id)
    ensures code == Ok ==> s.guid == (match HexToGuid(id, s.order) case Some(g) => g case None => old(s.guid))
    ensures code != Ok ==> s.guid == old(s.guid) && s.kernel.keyId == old(s.kernel.keyId)
    ensures Listed(s.provider, id) && !old(s.kernel.mounted) && id in s.kernel.db.keys && id in s.kernel.db.working ==>
      s.kernel.db.faults == old(s.kernel.db.faults) ==> code == Ok
  {
    hide Session.Valid, Inv, HexToGuid, Listed, PadsFit;
    s.choices := s.choices + 1;
    var found := FindKeySet(s.provider, id);
    if found == None {
      return KeyNotFound;
    }
    code := Engine.Mount(s.kernel);
    if code != Ok {
      return;
    }
    code := Engine.SetSessionKey(s.kernel, Some(id));
    if code != Ok {
      return;
    }
    var g := HexToGuid(id, s.order);
    if g.Some? {
      s.guid := g.value;
    }
  }

  /** The header of a message. */
  function HeaderFor(guid: Guid, offset: uint64, length: uint64): Header
  {
    ZERO.(initialized := true, key := guid, offset := offset, length := length)
  }

  /** Puts the header and the body together, in the buffer when they fit and in a new one when they do not. */
  method Assemble(header: Header, buffer: array<byte>, size: nat, body: array?<byte>, bodySize: nat, order: ByteOrder)
    returns (packet: array<byte>, packetSize: nat)
    requires HEADER_SPACE <= size <= buffer.Length && body != buffer
    requires if body == null then bodySize == 0 else bodySize <= body.Length
    modifies buffer
    ensures packetSize == |Encode(header, order)| + bodySize <= packet.Length
    ensures packet[..packetSize] == Encode(header, order) + (if body == null then [] else body[..bodySize])
    ensures if packetSize <= size then packet == buffer else fresh(packet)
  {
    hide Encode;
    EncodedSize(header, order);
    var code, n := StructureToBuffer(header, buffer, HEADER_SPACE, order);
    assert buffer[..n] == Encode(header, order);
    packet, packetSize := buffer, n + bodySize;
    if size < packetSize {
      packet := new byte[packetSize](i requires 0 <= i < packetSize reads buffer => if i < n then buffer[i] else 0);
    }
    assert packet[..n] == Encode(header, order);
    if body != null {
      Append(packet, n, body, bodySize);
    } else {
      assert packet[..packetSize] == Encode(header, order) + [];
    }
  }

  /** Copies the body behind the first n bytes. */
  method Append(packet: array<byte>, n: nat, body: array<byte>, bodySize: nat)
    requires n + bodySize <= packet.Length && bodySize <= body.Length && body != packet
    modifies packet
    ensures packet[..n + bodySize] == old(packet[..n]) + body[..bodySize]
  {
    forall i | 0 <= i < bodySize {
      packet[n + i] := body[i];
    }
    forall i | n <= i < n + bodySize
      ensures packet[i] == body[i - n]
    {
      assert packet[n + (i - n)] == body[i - n];
    }
  }

  /** Assembles the packet in the caller's buffer when it has the expected space, else in a new one. */
  method Pack(header: Header, provided: array?<byte>, outSize: nat, space: nat, body: array?<byte>, bodySize: nat,
              order: ByteOrder)
    returns (packet: array<byte>, packetSize: nat)
    requires HEADER_SPACE <= space
    requires provided != null ==> outSize <= provided.Length && body != provided
    requires if body == null then bodySize == 0 else bodySize <= body.Length
    modifies provided
    ensures packetSize == |Encode(header, order)| + bodySize <= packet.Length
    ensures packet[..packetSize] == Encode(header, order) + old(if body == null then [] else body[..bodySize])
    ensures packet == provided || fresh(packet)
    ensures packet == provided <==> provided != null && space <= outSize && packetSize <= outSize
  {
    hide Encode;
    var buffer, size := provided, outSize;
    if provided == null || outSize < space {
      buffer, size := new byte[space](_ => 0), space;
    }
    packet, packetSize := Assemble(header, buffer, size, body, bodySize, order);
  }

  /** The engine has no objection to encrypting this many bytes. */
  ghost predicate Permitted(s: AcpSession, size: nat)
    reads s.kernel, s.kernel.db
  {
    s.kernel.db.Clean() && size > 0 && Engine.CallStatus(s.kernel, s.kernel.encrypts, size) == Ok
  }

  /** The cache or the key of the session has bytes enough. */
  ghost predicate CanSend(s: AcpSession, size: nat)
    reads s.kernel, s.kernel.db
  {
    s.kernel.keyId.Some? && Grantable(s.kernel, s.kernel.db.committed, s.kernel.keyId.value, size)
  }

  /** The session has yet to fill its first cache entry. */
  ghost predicate FirstEntry(s: AcpSession)
    reads s.kernel, s.kernel.db
  {
    s.kernel.keyId.Some? && Uncached(s.kernel, s.kernel.db.committed, s.kernel.keyId.value)
  }

  /** Nothing of the session's key is set aside yet, or it can be given back before the request goes beyond it. */
  ghost predicate Saving(s: AcpSession, size: nat)
    reads s.kernel`keyId, s.kernel`slots, s.kernel`mounted
  {
    s.kernel.keyId.Some? && Thrifty(s.kernel, s.kernel.keyId.value, size)
  }

  /** What a permitted encryption comes to without faults. */
  ghost predicate Performed(s: AcpSession, slots: seq<CachedKey>, before: map<KeyId, Record>, size: nat, able: bool,
                            first: bool, saving: bool, code: Code)
    reads s.kernel`mounted, s.kernel`keyId, s.kernel`slots, s.kernel.db
  {
    && s.kernel.db.Clean() && s.kernel.keyId.Some?
    && Untroubled(s.kernel, before, s.kernel.keyId.value, size, able, first, code)
    && (saving ==> Spent(s.kernel, slots, before, s.kernel.keyId.value, if code == Ok then size else 0))
  }

  /** Encrypts into the kept body. An empty message leaves the body from the last one. */
  method EncryptBody(s: AcpSession, input: array<byte>, inSize: nat)
    returns (code: Code, start: uint64, ghost acts: seq<Action>)
    requires s.Valid() && inSize <= input.Length
    modifies s`body, s`bodySize, s.body
    modifies s.kernel`transaction, s.kernel`slots, s.kernel`owners, s.kernel`log, s.kernel.db
    ensures s.Valid()
    ensures s.body == old(s.body) || fresh(s.body)
    ensures code == Ok && inSize > 0 ==>
      && Engine.Combined(s.body, inSize, old(input[..inSize]), s.kernel.pads, s.kernel.keyId, start)
      && s.bodySize == inSize && inSize <= INT_MAX
      && s.kernel.log == old(s.kernel.log) + [Grant(s.kernel.keyId.value, start, start + inSize)]
    ensures code != Ok || inSize == 0 ==> s.body == old(s.body) && s.bodySize == old(s.bodySize)
    ensures code == Ok && inSize == 0 ==>
      && start == 0 && s.kernel.log == old(s.kernel.log)
      && (if s.body == null then [] else s.body[..s.bodySize]) == old(if s.body == null then [] else s.body[..s.bodySize])
    ensures inSize == 0 ==> code == old(Engine.CallStatus(s.kernel, s.kernel.encrypts, inSize))
    ensures old(s.kernel.db.faults) <= s.kernel.db.faults
    ensures old(Permitted(s, inSize)) && s.kernel.db.faults == old(s.kernel.db.faults) ==>
      Performed(s, old(s.kernel.slots), old(s.kernel.db.committed), inSize, old(CanSend(s, inSize)), old(FirstEntry(s)),
                old(Saving(s, inSize)), code)
    ensures Refines(s.kernel, old(s.kernel.View()), acts)
  {
    hide Session.Valid, Inv, Untroubled, Grantable, Uncached, Thrifty, Spent;
    var offset, body, bodySize;
    code, offset, body, bodySize, acts := Engine.Encrypt(s.kernel, 0, input, inSize, s.body, s.bodySize);
    start := 0;
    if code == Ok {
      s.body, s.bodySize, start := body, bodySize, offset;
    }
  }

  /**
   Encrypts `inSize` bytes and frames them. The packet is the encoded header of the range used, followed by the
   input combined with that range of the pad. An empty message repeats the body kept from the last message,
   under offset zero.
   */
  method Encrypt(s: AcpSession, input: array<byte>, inSize: nat, provided: array?<byte>, outSize: nat)
    returns (code: Code, offset: uint64, output: array?<byte>, newSize: nat, ghost acts: seq<Action>)
    requires s.Valid() && inSize <= input.Length
    requires provided != null ==> outSize <= provided.Length && provided != s.body
    modifies s`body, s`bodySize, s`previous, s.body, provided
    modifies s.kernel`transaction, s.kernel`slots, s.kernel`owners, s.kernel`log, s.kernel.db
    ensures s.Valid()
    ensures s.body == old(s.body) || fresh(s.body)
    ensures code == Ok && inSize > 0 ==>
      && Framed(s, output, newSize, offset, old(input[..inSize]))
      && s.kernel.log == old(s.kernel.log) + [Grant(s.kernel.keyId.value, offset, offset + inSize)]
    ensures code == Ok && inSize > 0 ==> (output == provided <==> provided != null && 112 + inSize <= outSize)
    ensures code == Ok && inSize == 0 ==>
      && output != null && newSize <= output.Length && offset == 0 && s.kernel.log == old(s.kernel.log)
      && output[..newSize] == Encode(HeaderFor(s.guid, 0, old(s.bodySize)), s.order)
                              + old(if s.body == null then [] else s.body[..s.bodySize])
    ensures code == Ok ==> s.previous == HeaderFor(s.guid, offset, s.bodySize)
    ensures code == Ok ==> s.bodySize == if inSize > 0 then inSize else old(s.bodySize)
    ensures code != Ok ==>
      && output == provided && newSize == outSize && s.previous == old(s.previous)
      && s.body == old(s.body) && s.bodySize == old(s.bodySize)
    ensures inSize == 0 ==> code == old(Engine.CallStatus(s.kernel, s.kernel.encrypts, inSize))
    ensures old(s.kernel.db.faults) <= s.kernel.db.faults
    ensures old(Permitted(s, inSize)) && s.kernel.db.faults == old(s.kernel.db.faults) ==>
      Performed(s, old(s.kernel.slots), old(s.kernel.db.committed), inSize, old(CanSend(s, inSize)), old(FirstEntry(s)),
                old(Saving(s, inSize)), code)
    ensures Refines(s.kernel, old(s.kernel.View()), acts)
  {
    hide Session.Valid, Inv, Encode, Permitted, CanSend, FirstEntry, Saving, Performed, Engine.CallStatus;
    output, newSize := provided, outSize;
    code, offset, acts := EncryptBody(s, input, inSize);
    if code != Ok {
      return;
    }
    var header := HeaderFor(s.guid, offset, s.bodySize);
    s.previous := header;
    EncodedSize(header, s.order);
    output, newSize := Pack(header, provided, outSize, HEADER_SPACE + inSize, s.body, s.bodySize, s.order);
  }

  /** A framed message: the header of the range, and `text` combined with that range of the session's pad. */
  ghost predicate Framed(s: AcpSession, output: array?<byte>, size: nat, offset: uint64, text: seq<byte>)
    reads s, s.kernel, output
  {
    && output != null && size <= output.Length && |text| <= INT_MAX
    && s.kernel.keyId.Some? && s.kernel.keyId.value in s.kernel.pads
    && var pad := s.kernel.pads[s.kernel.keyId.value];
    && offset + |text| <= |pad|
    && output[..size] == Encode(HeaderFor(s.guid, offset, |text|), s.order) + XorSeq(text, pad[offset..offset + |text|])
  }

  /** There is memory behind the packet for all of the cipher text its header announces. */
  ghost predicate BodyInMemory(input: array<byte>, inSize: nat, order: ByteOrder)
    requires inSize <= input.Length
    reads input
  {
    match Decode(input[..inSize], order)
    case Short => true
    case Decoded(h, n) => n + h.length <= input.Length
  }

  /** Whether the header names a key the session has not chosen. */
  predicate NamesOther(h: Header, guid: Guid)
  {
    h.key != GUID_NULL && h.key != guid
  }

  /** Follows the key a header names, if it is not the session's key already. */
  method FollowKey(s: AcpSession, h: Header) returns (code: Code)
    requires s.Valid()
    modifies s`guid, s`choices, s.kernel`mounted, s.kernel`keyId, s.kernel.db`faults
    ensures s.Valid() && s.kernel.View() == old(s.kernel.View()) && old(s.kernel.db.faults) <= s.kernel.db.faults
    ensures !NamesOther(h, old(s.guid)) ==>
      && code == Ok && s.choices == old(s.choices) && s.guid == old(s.guid) && s.kernel.mounted == old(s.kernel.mounted)
      && s.kernel.keyId == old(s.kernel.keyId) && s.kernel.db.faults == old(s.kernel.db.faults)
    ensures NamesOther(h, old(s.guid)) ==>
      && s.choices == old(s.choices) + 1
      && (code == Ok ==> s.guid == h.key && s.kernel.mounted && s.kernel.keyId == Some(GuidToHex(h.key, s.order)))
      && (old(s.kernel.mounted) || !Listed(s.provider, GuidToHex(h.key, s.order)) ==> code != Ok)
      && (code != Ok ==> s.guid == old(s.guid) && s.kernel.keyId == old(s.kernel.keyId))
      && (!old(s.kernel.mounted) && Listed(s.provider, GuidToHex(h.key, s.order))
          && GuidToHex(h.key, s.order) in s.kernel.db.keys && GuidToHex(h.key, s.order) in s.kernel.db.working ==>
            s.kernel.db.faults == old(s.kernel.db.faults) ==> code == Ok)
  {
    hide Session.Valid, Inv, Listed, PadsFit, GuidToHex, HexToGuid;
    code := Ok;
    if h.key != GUID_NULL && h.key != s.guid {
      var hex := GuidToHex(h.key, s.order);
      code := SetSessionKey(s, hex);
      GuidRoundTrip(h.key, "", s.order);
      assert hex + "" == hex;
    }
  }

  /** The key a session uses for a header: the one it names, or else the session's own. */
  function KeyFor(s: AcpSession, h: Header): Option<KeyId>
    reads s`guid, s.kernel`keyId
  {
    if NamesOther(h, s.guid) then Some(GuidToHex(h.key, s.order)) else s.kernel.keyId
  }

  /** The session can find the key for this header, and may read the range the header gives. */
  ghost predicate Answerable(s: AcpSession, h: Header)
    reads s`guid, s.kernel`keyId, s.kernel`mounted, s.kernel.db`working
  {
    && s.kernel.decrypts && (s.kernel.stream || s.kernel.blockOrFile) && 0 < h.length <= MAX_CHUNK_SIZE
    && KeyFor(s, h).Some? && KeyFor(s, h).value in s.kernel.pads
    && (if NamesOther(h, s.guid) then
          !s.kernel.mounted && Listed(s.provider, KeyFor(s, h).value) && KeyFor(s, h).value in s.kernel.db.working
        else s.kernel.mounted)
    && h.offset + h.length <= |s.kernel.pads[KeyFor(s, h).value]|
    && CanRead(s.kernel.db.keys, s.kernel.db.maxAttached, KeyFor(s, h).value, h.length)
  }

  lemma Idle(kernel: Session)
    requires kernel.Valid()
    ensures !kernel.transaction
  {
  }

  /** Decryption by the engine, in the terms of a header whose key has been followed. */
  method DecryptBody(s: AcpSession, h: Header, cipher: array<byte>, provided: array?<byte>, outSize: nat)
    returns (code: Code, output: array?<byte>, newSize: nat, ghost acts: seq<Action>)
    requires s.Valid() && cipher.Length == h.length && !NamesOther(h, s.guid)
    requires provided != null ==> outSize <= provided.Length && provided != s.body
    modifies s.kernel`transaction, s.kernel`slots, s.kernel`owners, s.kernel`log, s.kernel.db, provided
    ensures s.Valid() && Refines(s.kernel, old(s.kernel.View()), acts) && s.kernel.log == old(s.kernel.log)
    ensures old(s.kernel.db.faults) <= s.kernel.db.faults
    ensures code != Ok ==> output == provided && newSize == outSize
    ensures code == Ok ==> s.kernel.mounted
    ensures code == Ok && h.length > 0 ==>
      && Engine.Combined(output, h.length, old(cipher[..]), s.kernel.pads, s.kernel.keyId, h.offset)
      && newSize == h.length
    ensures old(Answerable(s, h)) && old(s.kernel.db.Clean()) && s.kernel.db.faults == old(s.kernel.db.faults) ==>
      code == Ok && s.kernel.db.Clean()
  {
    hide Session.Valid, Inv, Listed, PadsFit, Engine.Combined, Status, CanRead;
    ghost var answerable := Answerable(s, h);
    if answerable {
      Idle(s.kernel);
      Engine.ReadableStatus(s.kernel, h.length, h.offset);
    }
    assert cipher[..h.length] == cipher[..];
    code, output, newSize, acts := Engine.Decrypt(s.kernel, h.offset, cipher, h.length, provided, outSize);
  }

  /** What is done with a header: remember it, follow its key, decrypt the body that comes with it. */
  method DecryptMessage(s: AcpSession, h: Header, cipher: array<byte>, provided: array?<byte>, outSize: nat)
    returns (code: Code, output: array?<byte>, newSize: nat, ghost acts: seq<Action>)
    requires s.Valid() && cipher.Length == h.length
    requires provided != null ==> outSize <= provided.Length && provided != s.body
    modifies s`guid, s`choices, s`previous, provided
    modifies s.kernel`mounted, s.kernel`keyId, s.kernel`transaction, s.kernel`slots, s.kernel`owners, s.kernel`log, s.kernel.db
    ensures s.Valid() && Refines(s.kernel, old(s.kernel.View()), acts) && s.kernel.log == old(s.kernel.log)
    ensures old(s.kernel.db.faults) <= s.kernel.db.faults
    ensures code != Ok ==> output == provided && newSize == outSize
    ensures s.previous == h
    ensures s.choices == old(s.choices) + (if NamesOther(h, old(s.guid)) then 1 else 0)
    ensures NamesOther(h, old(s.guid)) && old(s.kernel.mounted) ==> code != Ok
    ensures || (s.guid == old(s.guid) && s.kernel.keyId == old(s.kernel.keyId))
            || (s.guid == h.key && s.kernel.keyId == Some(GuidToHex(h.key, s.order)))
    ensures code == Ok ==> s.kernel.mounted && !NamesOther(h, s.guid) && s.kernel.keyId == old(KeyFor(s, h))
    ensures code == Ok && h.length > 0 ==>
      && Engine.Combined(output, h.length, old(cipher[..]), s.kernel.pads, s.kernel.keyId, h.offset)
      && newSize == h.length
    ensures old(Answerable(s, h)) && old(s.kernel.db.Clean()) && s.kernel.db.faults == old(s.kernel.db.faults) ==>
      code == Ok && s.kernel.db.Clean()
  {
    hide Session.Valid, Inv, Listed, PadsFit, GuidToHex, HexToGuid, Engine.Combined;
    output, newSize, acts := provided, outSize, [];
    s.previous := h;
    code := FollowKey(s, h);
    if code != Ok {
      return;
    }
    code, output, newSize, acts := DecryptBody(s, h, cipher, provided, outSize);
  }

  /**
   Decrypts a packet. It follows the key the header names, and combines the cipher text with the range of the pad
   the header gives. A session that has mounted a keyset refuses any other key. The announced length is not compared
   with the size of the packet: it is read even where it goes beyond.
   */
  method Decrypt(s: AcpSession, input: array<byte>, inSize: nat, provided: array?<byte>, outSize: nat)
    returns (code: Code, output: array?<byte>, newSize: nat, ghost acts: seq<Action>)
    requires s.Valid() && inSize <= input.Length && BodyInMemory(input, inSize, s.order)
    requires provided != null ==> outSize <= provided.Length && provided != s.body
    modifies s`guid, s`choices, s`previous, provided
    modifies s.kernel`mounted, s.kernel`keyId, s.kernel`transaction, s.kernel`slots, s.kernel`owners, s.kernel`log, s.kernel.db
    ensures s.Valid() && Refines(s.kernel, old(s.kernel.View()), acts) && s.kernel.log == old(s.kernel.log)
    ensures old(s.kernel.db.faults) <= s.kernel.db.faults
    ensures code != Ok ==> output == provided && newSize == outSize
    ensures match Decode(old(input[..inSize]), s.order)
            case Short =>
              && code == Overflow && s.previous == old(s.previous) && s.guid == old(s.guid) && s.choices == old(s.choices)
              && s.kernel.keyId == old(s.kernel.keyId)
            case Decoded(h, n) =>
              && Handled(s, old(s.guid), old(s.choices), old(s.kernel.mounted), old(s.kernel.keyId),
                         h, old(input[n..n + h.length]), code, output, newSize)
              && (old(Answerable(s, h)) && old(s.kernel.db.Clean()) && s.kernel.db.faults == old(s.kernel.db.faults) ==>
                    code == Ok && s.kernel.db.Clean())
  {
    hide Session.Valid, Inv, PadsFit, Decode, Engine.Combined, Answerable, GuidToHex, NamesOther, CipherTextHeader.Value;
    output, newSize, acts := provided, outSize, [];
    var header := new CipherTextHeader();
    var n;
    code, n := header.BufferToStructure(input, inSize, s.order);
    if code != Ok {
      return;
    }
    var h := header.Value();
    var cipher := new byte[h.length](i requires 0 <= i < h.length reads input => input[n + i]);
    assert cipher[..] == input[n..n + h.length];
    code, output, newSize, acts := DecryptMessage(s, h, cipher, provided, outSize);
  }

  /** The state of a session, and the result of its call, after it has handled a header and its cipher text. */
  ghost predicate Handled(s: AcpSession, guid: Guid, choices: nat, mounted: bool, keyId: Option<KeyId>, h: Header,
                          cipher: seq<byte>, code: Code, output: array?<byte>, newSize: nat)
    reads s, s.kernel, output
  {
    && s.previous == h
    && s.choices == choices + (if NamesOther(h, guid) then 1 else 0)
    && (NamesOther(h, guid) && mounted ==> code != Ok)
    && (|| (s.guid == guid && s.kernel.keyId == keyId)
        || (s.guid == h.key && s.kernel.keyId == Some(GuidToHex(h.key, s.order))))
    && (code == Ok ==>
          && s.kernel.mounted && !NamesOther(h, s.guid)
          && s.kernel.keyId == (if NamesOther(h, guid) then Some(GuidToHex(h.key, s.order)) else keyId))
    && (code == Ok && h.length > 0 ==>
          Engine.Combined(output, h.length, cipher, s.kernel.pads, s.kernel.keyId, h.offset) && newSize == h.length)
  }

  /** The two ends of a conversation: apart in memory, and holding the same pad for the sender's key. */
  ghost predicate Linked(a: AcpSession, b: AcpSession)
    reads a, a.kernel, a.kernel.db, b, b.kernel, b.kernel.db
  {
    && a.Valid() && b.Valid() && a != b && a.kernel != b.kernel && a.kernel.db != b.kernel.db && a.order == b.order
    && a.guid != GUID_NULL && a.kernel.keyId.Some? && a.kernel.keyId.value in a.kernel.pads
    && var pad := a.kernel.pads[a.kernel.keyId.value];
    && (b.guid == a.guid ==> b.kernel.keyId.Some? && HasPad(b, b.kernel.keyId.value, pad))
    && forall id: KeyId :: Names(id, a.guid, a.order) ==> HasPad(b, id, pad)
  }

  /** The printed form of the identifier. */
  predicate Names(id: KeyId, guid: Guid, order: ByteOrder)
  {
    id == GuidToHex(guid, order)
  }

  /** If the session has a pad under this name, it is this one. */
  ghost predicate HasPad(s: AcpSession, id: KeyId, pad: seq<byte>)
  {
    id in s.kernel.pads ==> s.kernel.pads[id] == pad
  }

  datatype Delivery = NotSent | Lost | Delivered(text: seq<byte>)

  /** The sender may encrypt texts of up to `most` bytes under its key. */
  ghost predicate Ready(a: AcpSession, most: nat)
    reads a.kernel`mounted, a.kernel`keyId, a.kernel.db
  {
    a.kernel.db.Clean() && ReadyOn(a, a.kernel.db.committed, most)
  }

  ghost predicate ReadyOn(a: AcpSession, records: map<KeyId, Record>, most: nat)
    reads a.kernel`mounted, a.kernel`keyId
  {
    && a.kernel.mounted && a.kernel.keyId.Some? && most <= MAX_CHUNK_SIZE
    && a.kernel.encrypts && (a.kernel.stream || a.kernel.blockOrFile)
    && MayEncrypt(a.kernel.db.keys, records, a.kernel.db.maxAttached, a.kernel.keyId.value, most)
  }

  /** The bytes of the sender's key that are not allocated. */
  ghost function Unallocated(a: AcpSession): int
    reads a.kernel`keyId, a.kernel.db
  {
    match a.kernel.keyId
    case Some(k) =>
      if k in a.kernel.db.keys && k in a.kernel.db.committed then a.kernel.db.keys[k].total - a.kernel.db.committed[k].used
      else 0
    case None => 0
  }

  /**
   The sender has no cache, or gives back unused bytes and no text is longer than a cache entry; and nothing that is set
   aside of its key is out of reach.
   */
  ghost predicate Careful(a: AcpSession, most: nat)
    reads a.kernel`keyId, a.kernel`slots, a.kernel.db`committed
  {
    && (a.kernel.cacheKeySize == 0 || (a.kernel.resetCachedKeys && most <= a.kernel.cacheKeySize))
    && a.kernel.keyId.Some? && Tidy(a.kernel.slots, a.kernel.db.committed, a.kernel.keyId.value)
  }

  /** The bytes of the sender's key that have not been handed out. */
  ghost function Spare(a: AcpSession): int
    reads a.kernel`keyId, a.kernel`slots, a.kernel.db
  {
    match a.kernel.keyId
    case Some(k) =>
      if k in a.kernel.db.keys then a.kernel.db.keys[k].total - Edge(a.kernel.slots, a.kernel.db.committed, k) else 0
    case None => 0
  }

  /**
   What sending a text comes to without faults: it is sent exactly when the sender can, certainly when its charge is
   still unallocated, and takes no more than that from the key; a careful sender sends exactly the texts that its key
   has bytes for, and loses none.
   */
  ghost predicate Sent(a: AcpSession, text: seq<byte>, most: nat, able: bool, unallocated: int, careful: bool, spare: int,
                       sent: bool)
    reads a.kernel`mounted, a.kernel`keyId, a.kernel`slots, a.kernel.db
  {
    var charge := Charge(a.kernel.cacheKeySize, |text|);
    && Ready(a, most) && (sent <==> able)
    && (charge <= unallocated ==> sent)
    && (sent ==> unallocated <= Unallocated(a) + charge)
    && (careful ==>
          Careful(a, most) && (sent <==> |text| <= spare) && Spare(a) == spare - if sent then |text| else 0)
  }

  /** A session without a cache is careful, and what it has not allocated is what it has not handed out. */
  lemma CarefulWithoutCache(a: AcpSession, most: nat)
    requires a.Valid() && Ready(a, most) && a.kernel.cacheKeySize == 0
    ensures Careful(a, most) && Spare(a) == Unallocated(a)
  {
  }

  /** So is a session whose cache has no slot in use, if it gives back and its texts are no longer than an entry. */
  lemma CarefulAtFirst(a: AcpSession, most: nat)
    requires a.Valid() && Ready(a, most) && a.kernel.resetCachedKeys && most <= a.kernel.cacheKeySize
    requires forall i :: 0 <= i < |a.kernel.slots| ==> !a.kernel.slots[i].inUse
    ensures Careful(a, most) && Spare(a) == Unallocated(a)
  {
  }

  lemma ReadyCalls(a: AcpSession, text: seq<byte>, most: nat)
    requires a.Valid() && Ready(a, most) && 0 < |text| <= most
    ensures Permitted(a, |text|)
    ensures a.kernel.keyId.value in a.kernel.db.committed && a.kernel.keyId.value in a.kernel.db.keys
    ensures Unallocated(a) == a.kernel.db.keys[a.kernel.keyId.value].total - a.kernel.db.committed[a.kernel.keyId.value].used
    ensures Charge(a.kernel.cacheKeySize, |text|) <= Unallocated(a) ==> CanSend(a, |text|)
    ensures Careful(a, most) ==> Saving(a, |text|) && (CanSend(a, |text|) <==> |text| <= Spare(a))
  {
    if Careful(a, most) {
      TidyGrants(a.kernel, a.kernel.keyId.value, |text|);
    }
    RoomGrants(a.kernel, a.kernel.db.committed, a.kernel.keyId.value, |text|);
  }

  lemma ReadySent(a: AcpSession, slots: seq<CachedKey>, before: map<KeyId, Record>, text: seq<byte>, most: nat, able: bool,
                  first: bool, unallocated: int, careful: bool, spare: int, saving: bool, code: Code)
    requires ReadyOn(a, before, most) && 0 < |text| <= most
    requires before.Keys == a.kernel.db.committed.Keys
    requires Performed(a, slots, before, |text|, able, first, saving, code)
    requires unallocated == a.kernel.db.keys[a.kernel.keyId.value].total - before[a.kernel.keyId.value].used
    requires Charge(a.kernel.cacheKeySize, |text|) <= unallocated ==> able
    requires careful ==>
      && saving && (able <==> |text| <= spare) && Tidy(slots, before, a.kernel.keyId.value)
      && (a.kernel.cacheKeySize == 0 || (a.kernel.resetCachedKeys && most <= a.kernel.cacheKeySize))
      && spare == a.kernel.db.keys[a.kernel.keyId.value].total - Edge(slots, before, a.kernel.keyId.value)
    ensures Sent(a, text, most, able, unallocated, careful, spare, code == Ok)
  {
    hide Tidy, Edge;
  }

  /** The records are those of the keys, and none is beyond its key. */
  lemma KeysKept(kernel: Session)
    requires kernel.Valid()
    ensures kernel.db.committed.Keys == kernel.db.keys.Keys
    ensures forall k :: k in kernel.db.committed ==> kernel.db.committed[k].used <= kernel.db.keys[k].total
  {
    forall k | k in kernel.db.committed
      ensures kernel.db.committed[k].used <= kernel.db.keys[k].total
    {
      assert KeyOk(kernel.db.keys[k], kernel.pads[k], kernel.db.committed[k]);
    }
  }

  /** The header that a message of this length goes under. */
  predicate Heads(h: Header, guid: Guid, offset: uint64, length: uint64)
  {
    h == HeaderFor(guid, offset, length)
  }

  /** The packet is the header of a range of the sender's pad, and the text combined with that range. */
  ghost predicate Carries(a: AcpSession, packet: seq<byte>, offset: uint64, text: seq<byte>)
    reads a`guid, a.kernel`keyId
  {
    && a.kernel.keyId.Some? && a.kernel.keyId.value in a.kernel.pads
    && offset + |text| <= |a.kernel.pads[a.kernel.keyId.value]| && |text| < 0x1_0000_0000_0000_0000
    && var cipher := XorSeq(text, a.kernel.pads[a.kernel.keyId.value][offset..offset + |text|]);
       forall h :: Heads(h, a.guid, offset, |text|) ==> packet == Encode(h, a.order) + cipher
  }

  /** Encrypts a text with fresh buffers. */
  method EncryptText(a: AcpSession, text: seq<byte>) returns (code: Code, offset: uint64, packet: seq<byte>)
    requires a.Valid() && text != []
    modifies a`body, a`bodySize, a`previous, a.body
    modifies a.kernel`transaction, a.kernel`slots, a.kernel`owners, a.kernel`log, a.kernel.db
    ensures code == Ok ==> Carries(a, packet, offset, text)
    ensures old(a.kernel.db.faults) <= a.kernel.db.faults
    ensures old(Permitted(a, |text|)) && a.kernel.db.faults == old(a.kernel.db.faults) ==>
      Performed(a, old(a.kernel.slots), old(a.kernel.db.committed), |text|, old(CanSend(a, |text|)), old(FirstEntry(a)),
                old(Saving(a, |text|)), code)
    ensures a.Valid() && (a.body == old(a.body) || fresh(a.body))
  {
    hide Session.Valid, Inv, PadsFit, Encode, Permitted, CanSend, FirstEntry, Saving, Performed;
    var input := new byte[|text|](i requires 0 <= i < |text| => text[i]);
    assert input[..|text|] == text;
    var output, size;
    ghost var acts;
    code, offset, output, size, acts := Encrypt(a, input, |text|, null, 0);
    packet := if code == Ok then output[..size] else [];
  }

  /** Encrypts a text as far as the sender's key lasts. */
  method Send(a: AcpSession, text: seq<byte>, ghost most: nat) returns (code: Code, offset: uint64, packet: seq<byte>)
    requires a.Valid() && text != []
    modifies a`body, a`bodySize, a`previous, a.body
    modifies a.kernel`transaction, a.kernel`slots, a.kernel`owners, a.kernel`log, a.kernel.db
    ensures code == Ok ==> Carries(a, packet, offset, text)
    ensures old(a.kernel.db.faults) <= a.kernel.db.faults
    ensures a.kernel.db.faults == old(a.kernel.db.faults) && old(Ready(a, most)) && |text| <= most ==>
      Sent(a, text, most, old(CanSend(a, |text|)), old(Unallocated(a)), old(Careful(a, most)), old(Spare(a)), code == Ok)
    ensures a.Valid() && (a.body == old(a.body) || fresh(a.body))
  {
    hide Session.Valid, PadsFit, Permitted, Performed, CanSend, FirstEntry, MayEncrypt, Unallocated, Sent, Carries, Saving;
    hide Tidy, Edge;
    ghost var before, unallocated, able := a.kernel.db.committed, Unallocated(a), CanSend(a, |text|);
    ghost var first, saving, slots := FirstEntry(a), Saving(a, |text|), a.kernel.slots;
    ghost var careful, spare := Careful(a, most), Spare(a);
    ghost var ready, faults := Ready(a, most) && |text| <= most, a.kernel.db.faults;
    KeysKept(a.kernel);
    if ready {
      ReadyCalls(a, text, most);
    }
    code, offset, packet := EncryptText(a, text);
    KeysKept(a.kernel);
    if ready && a.kernel.db.faults == faults {
      ReadySent(a, slots, before, text, most, able, first, unallocated, careful, spare, saving, code);
    }
  }

  /** An encoded header that decodes to itself, followed by the cipher text it announces. */
  ghost predicate IsPacket(packet: seq<byte>, h: Header, cipher: seq<byte>, order: ByteOrder)
  {
    packet == Encode(h, order) + cipher && Kept(h) == h && |cipher| == h.length && 0 < h.length
  }

  /** The text is the cipher text combined with the range of the session's pad that the header gives. */
  ghost predicate Opened(b: AcpSession, h: Header, cipher: seq<byte>, text: seq<byte>)
    reads b.kernel`keyId
  {
    && b.kernel.keyId.Some? && b.kernel.keyId.value in b.kernel.pads && |cipher| == h.length
    && h.offset + h.length <= |b.kernel.pads[b.kernel.keyId.value]|
    && text == XorSeq(cipher, b.kernel.pads[b.kernel.keyId.value][h.offset..h.offset + h.length])
  }

  /** Decrypts a packet made of this header and this cipher text. */
  method Receive(b: AcpSession, packet: seq<byte>, ghost h: Header, ghost cipher: seq<byte>)
    returns (code: Code, text: seq<byte>)
    requires b.Valid() && IsPacket(packet, h, cipher, b.order)
    modifies b`guid, b`choices, b`previous
    modifies b.kernel`mounted, b.kernel`keyId, b.kernel`transaction, b.kernel`slots, b.kernel`owners, b.kernel`log, b.kernel.db
    ensures b.Valid() && old(b.kernel.db.faults) <= b.kernel.db.faults
    ensures b.choices == old(b.choices) + (if NamesOther(h, old(b.guid)) then 1 else 0)
    ensures || (b.guid == old(b.guid) && b.kernel.keyId == old(b.kernel.keyId))
            || (b.guid == h.key && b.kernel.keyId == Some(GuidToHex(h.key, b.order)))
    ensures code == Ok ==>
      && b.kernel.mounted && !NamesOther(h, b.guid) && b.kernel.keyId == old(KeyFor(b, h))
      && Opened(b, h, cipher, text)
    ensures old(Answerable(b, h)) && old(b.kernel.db.Clean()) && b.kernel.db.faults == old(b.kernel.db.faults) ==>
      code == Ok && b.kernel.db.Clean()
  {
    hide Session.Valid, Inv, PadsFit, Decode, Encode, Answerable, GuidToHex, Kept;
    DecodesKept(h, cipher, b.order);
    assert packet[|Encode(h, b.order)|..][..h.length] == cipher;
    var input := new byte[|packet|](i requires 0 <= i < |packet| => packet[i]);
    assert input[..|packet|] == packet;
    var output, n;
    ghost var acts;
    code, output, n, acts := Decrypt(b, input, |packet|, null, 0);
    text := if code == Ok then output[..n] else [];
  }

  /** The receiver can follow the sender's key, and may read ranges of up to `most` bytes of it. */
  ghost predicate Prepared(b: AcpSession, guid: Guid, most: nat)
    reads b`guid, b.kernel`keyId, b.kernel`mounted, b.kernel.db`working
  {
    && b.kernel.decrypts && (b.kernel.stream || b.kernel.blockOrFile) && most <= MAX_CHUNK_SIZE
    && (if b.guid != guid then
          !b.kernel.mounted && forall id: KeyId :: Names(id, guid, b.order) ==>
            Listed(b.provider, id) && id in b.kernel.db.working && MayReadKey(b, id, most)
        else b.kernel.mounted && b.kernel.keyId.Some? && MayReadKey(b, b.kernel.keyId.value, most))
  }

  ghost predicate MayReadKey(b: AcpSession, id: KeyId, most: nat)
  {
    id in b.kernel.pads && CanRead(b.kernel.db.keys, b.kernel.db.maxAttached, id, most)
  }

  lemma LinkedValid(a: AcpSession, b: AcpSession)
    requires Linked(a, b)
    ensures a.Valid() && b.Valid() && a != b && a.kernel != b.kernel && a.kernel.db != b.kernel.db && a.order == b.order
    ensures a.kernel.keyId.Some? && a.kernel.keyId.value in a.kernel.pads && OnePad(b, a.guid, b.guid, b.kernel.keyId, a)
  {
  }

  /** With this identifier and key, the second session has the sender's pad for the sender's key, if it has one at all. */
  ghost predicate OnePad(b: AcpSession, wanted: Guid, guid: Guid, keyId: Option<KeyId>, a: AcpSession)
    reads a.kernel`keyId
  {
    && wanted != GUID_NULL && a.kernel.keyId.Some? && a.kernel.keyId.value in a.kernel.pads
    && var pad := a.kernel.pads[a.kernel.keyId.value];
    && (guid == wanted ==> keyId.Some? && HasPad(b, keyId.value, pad))
    && forall id: KeyId :: Names(id, wanted, b.order) ==> HasPad(b, id, pad)
  }

  /** Following the sender's key keeps the two ends linked. */
  lemma StaysLinked(a: AcpSession, b: AcpSession, guid: Guid, keyId: Option<KeyId>)
    requires a.Valid() && b.Valid() && a != b && a.kernel != b.kernel && a.kernel.db != b.kernel.db && a.order == b.order
    requires OnePad(b, a.guid, guid, keyId, a)
    requires || (b.guid == guid && b.kernel.keyId == keyId)
             || (b.guid == a.guid && b.kernel.keyId == Some(GuidToHex(a.guid, b.order)))
    ensures Linked(a, b)
  {
    hide Session.Valid, PadsFit, GuidToHex;
    assert Names(GuidToHex(a.guid, b.order), a.guid, b.order);
  }

  lemma SamePad(a: AcpSession, b: AcpSession)
    requires OnePad(b, a.guid, b.guid, b.kernel.keyId, a) && b.guid == a.guid
    requires b.kernel.keyId.Some? && b.kernel.keyId.value in b.kernel.pads
    ensures b.kernel.pads[b.kernel.keyId.value] == a.kernel.pads[a.kernel.keyId.value]
  {
  }

  lemma PreparedKey(b: AcpSession, h: Header, most: nat)
    requires Prepared(b, h.key, most) && h.key != GUID_NULL
    ensures KeyFor(b, h).Some? && MayReadKey(b, KeyFor(b, h).value, most)
    ensures b.kernel.decrypts && (b.kernel.stream || b.kernel.blockOrFile) && most <= MAX_CHUNK_SIZE
  {
    hide GuidToHex, CanRead;
    assert Names(GuidToHex(h.key, b.order), h.key, b.order);
  }

  lemma NowPrepared(b: AcpSession, guid: Guid, most: nat)
    requires b.guid == guid && b.kernel.mounted && b.kernel.keyId.Some? && MayReadKey(b, b.kernel.keyId.value, most)
    requires b.kernel.decrypts && (b.kernel.stream || b.kernel.blockOrFile) && most <= MAX_CHUNK_SIZE
    ensures Prepared(b, guid, most)
  {
    hide CanRead;
  }

  lemma PreparedAnswers(a: AcpSession, b: AcpSession, h: Header, most: nat)
    requires Linked(a, b) && Prepared(b, a.guid, most)
    requires h.key == a.guid && 0 < h.length <= most
    requires h.offset + h.length <= |a.kernel.pads[a.kernel.keyId.value]|
    ensures Answerable(b, h)
  {
    hide Session.Valid, Listed, GuidToHex;
    assert Names(GuidToHex(a.guid, a.order), a.guid, a.order);
  }

  /** Hands a packet to the receiver. What arrives is what was sent. */
  method HandOver(a: AcpSession, b: AcpSession, text: seq<byte>, offset: uint64, packet: seq<byte>, ghost most: nat)
    returns (delivery: Delivery)
    requires Linked(a, b) && text != [] && Carries(a, packet, offset, text)
    modifies b`guid, b`choices, b`previous
    modifies b.kernel`mounted, b.kernel`keyId, b.kernel`transaction, b.kernel`slots, b.kernel`owners, b.kernel`log, b.kernel.db
    ensures Linked(a, b) && old(b.kernel.db.faults) <= b.kernel.db.faults
    ensures delivery == Lost || (delivery == Delivered(text) && b.guid == a.guid)
    ensures b.choices == old(b.choices) + (if old(b.guid) != a.guid then 1 else 0)
    ensures old(b.guid) == a.guid ==> b.guid == a.guid
    ensures |text| <= most && old(Prepared(b, a.guid, most)) && old(b.kernel.db.Clean())
            && b.kernel.db.faults == old(b.kernel.db.faults) ==>
            delivery != Lost && Prepared(b, a.guid, most) && b.kernel.db.Clean()
  {
    hide Session.Valid, Inv, PadsFit, Encode, Answerable, GuidToHex, Listed, CanRead;
    hide Linked, OnePad, Prepared, AcpSession.Valid, MayReadKey;
    LinkedValid(a, b);
    ghost var guid, keyId := b.guid, b.kernel.keyId;
    ghost var header := HeaderFor(a.guid, offset, |text|);
    ghost var pad := a.kernel.pads[a.kernel.keyId.value][offset..offset + |text|];
    XorSeqCancels(text, pad);
    assert Heads(header, a.guid, offset, |text|) && Kept(header) == header;
    ghost var answers := |text| <= most && Prepared(b, a.guid, most);
    if answers {
      PreparedAnswers(a, b, header, most);
      PreparedKey(b, header, most);
    }
    var received, result := Receive(b, packet, header, XorSeq(text, pad));
    StaysLinked(a, b, guid, keyId);
    if received != Ok {
      return Lost;
    }
    LinkedValid(a, b);
    SamePad(a, b);
    if answers {
      NowPrepared(b, a.guid, most);
    }
    return Delivered(result);
  }

  /**
   Sends a message and hands the packet to the receiver. What arrives is what was sent. Without faults on its side the
   sender sends exactly what it can; without faults on its side a prepared receiver gets what was sent.
   */
  method Relay(a: AcpSession, b: AcpSession, text: seq<byte>, ghost most: nat) returns (delivery: Delivery)
    requires Linked(a, b) && text != []
    modifies a`body, a`bodySize, a`previous, a.body
    modifies a.kernel`transaction, a.kernel`slots, a.kernel`owners, a.kernel`log, a.kernel.db
    modifies b`guid, b`choices, b`previous
    modifies b.kernel`mounted, b.kernel`keyId, b.kernel`transaction, b.kernel`slots, b.kernel`owners, b.kernel`log, b.kernel.db
    ensures Linked(a, b) && (a.body == old(a.body) || fresh(a.body))
    ensures old(a.kernel.db.faults) <= a.kernel.db.faults && old(b.kernel.db.faults) <= b.kernel.db.faults
    ensures delivery.Delivered? ==> delivery.text == text && b.guid == a.guid
    ensures b.choices == old(b.choices) + (if delivery != NotSent && old(b.guid) != a.guid then 1 else 0)
    ensures old(b.guid) == a.guid ==> b.guid == a.guid
    ensures a.kernel.db.faults == old(a.kernel.db.faults) && old(Ready(a, most)) && |text| <= most ==>
      Sent(a, text, most, old(CanSend(a, |text|)), old(Unallocated(a)), old(Careful(a, most)), old(Spare(a)),
           delivery != NotSent)
    ensures |text| <= most && old(Prepared(b, a.guid, most)) && old(b.kernel.db.Clean())
            && b.kernel.db.faults == old(b.kernel.db.faults) ==>
            delivery != Lost && Prepared(b, a.guid, most) && b.kernel.db.Clean()
  {
    hide Linked, OnePad, Prepared, AcpSession.Valid, Ready, CanSend, Unallocated, Sent, Carries, Careful, Spare;
    LinkedValid(a, b);
    ghost var guid, keyId := b.guid, b.kernel.keyId;
    var sent, offset, packet := Send(a, text, most);
    StaysLinked(a, b, guid, keyId);
    if sent != Ok {
      return NotSent;
    }
    delivery := HandOver(a, b, text, offset, packet, most);
  }

  /** How many messages did not arrive. */
  function Undelivered(results: seq<Delivery>): nat
  {
    if results == [] then 0
    else Undelivered(results[..|results| - 1]) + (if results[|results| - 1].Delivered? then 0 else 1)
  }

  lemma Counted(results: seq<Delivery>, last: Delivery)
    ensures Undelivered(results + [last]) == Undelivered(results) + (if last.Delivered? then 0 else 1)
  {
    assert (results + [last])[..|results|] == results;
  }

  lemma {:induction false} NoneUndelivered(results: seq<Delivery>)
    requires NotSent !in results && Lost !in results
    ensures Undelivered(results) == 0
  {
    if results != [] {
      NoneUndelivered(results[..|results| - 1]);
    }
  }

  /** What the texts may take from the key: without a cache their total length, else a whole entry for each at least. */
  function Cost(entry: nat, texts: seq<seq<byte>>): nat
  {
    if texts == [] then 0 else Charge(entry, |texts[0]|) + Cost(entry, texts[1..])
  }

  /** Every message arrives. */
  predicate AllDelivered(texts: seq<seq<byte>>, results: seq<Delivery>)
  {
    |results| == |texts| && forall i :: 0 <= i < |texts| ==> results[i] == Delivered(texts[i])
  }

  /** What a conversation sets out with: what it may cost, its length, and what the sender's key has left. */
  datatype Budget = Budget(cost: nat, length: nat, unallocated: int, careful: bool, spare: int)

  ghost function BudgetOf(a: AcpSession, texts: seq<seq<byte>>, most: nat): Budget
    reads a.kernel`keyId, a.kernel`slots, a.kernel.db
  {
    Budget(Cost(a.kernel.cacheKeySize, texts), Cost(0, texts), Unallocated(a), Careful(a, most), Spare(a))
  }

  /**
   How far the sender has come without faults: if the key has the cost of all texts, none was refused and it has
   the cost of the rest. A careful sender has lost the length of the texts sent so far, or has refused one because the
   key did not have their whole length.
   */
  ghost predicate Underway(a: AcpSession, rest: seq<seq<byte>>, most: nat, b: Budget, refused: bool)
    reads a.kernel`mounted, a.kernel`keyId, a.kernel`slots, a.kernel.db
  {
    && Ready(a, most)
    && (b.cost <= b.unallocated ==> !refused && Cost(a.kernel.cacheKeySize, rest) <= Unallocated(a))
    && (b.careful ==>
          && Careful(a, most)
          && (if refused then b.spare < b.length else Spare(a) - Cost(0, rest) == b.spare - b.length))
  }

  lemma UnderwayNext(a: AcpSession, rest: seq<seq<byte>>, most: nat, b: Budget, refused: bool, able: bool, before: int,
                     careful: bool, spare: int, sent: bool)
    requires rest != [] && Sent(a, rest[0], most, able, before, careful, spare, sent)
    requires b.cost <= b.unallocated ==> !refused && Cost(a.kernel.cacheKeySize, rest) <= before
    requires b.careful ==>
      careful && (if refused then b.spare < b.length else spare - Cost(0, rest) == b.spare - b.length)
    ensures Underway(a, rest[1..], most, b, refused || !sent)
  {
    hide Ready, Careful, Spare, Unallocated;
  }

  /**
   A conversation of non-empty messages under one key. Every message that arrives is the one sent. The receiver
   goes looking for its key once, and again only after a message that did not arrive. Without faults, between a sender
   that is ready and a receiver that is prepared, every message arrives if the key has the cost of all of them; when the
   sender is careful, every message arrives if and only if the key has as many bytes left as they are long.
   */
  method Exchange(a: AcpSession, b: AcpSession, texts: seq<seq<byte>>, ghost most: nat) returns (results: seq<Delivery>)
    requires Linked(a, b) && forall i :: 0 <= i < |texts| ==> 0 < |texts[i]| <= most
    modifies a`body, a`bodySize, a`previous, a.body
    modifies a.kernel`transaction, a.kernel`slots, a.kernel`owners, a.kernel`log, a.kernel.db
    modifies b`guid, b`choices, b`previous
    modifies b.kernel`mounted, b.kernel`keyId, b.kernel`transaction, b.kernel`slots, b.kernel`owners, b.kernel`log, b.kernel.db
    ensures Linked(a, b) && |results| == |texts|
    ensures forall i :: 0 <= i < |texts| && results[i].Delivered? ==> results[i].text == texts[i]
    ensures b.choices <= old(b.choices) + Undelivered(results) + 1
    ensures old(b.guid) == a.guid ==> b.choices == old(b.choices)
    ensures old(Prepared(b, a.guid, most)) && old(b.kernel.db.Clean()) && b.kernel.db.faults == old(b.kernel.db.faults) ==>
      Lost !in results
    ensures old(Ready(a, most)) && a.kernel.db.faults == old(a.kernel.db.faults) ==>
      && (Cost(a.kernel.cacheKeySize, texts) <= old(Unallocated(a)) ==> NotSent !in results)
      && (old(Careful(a, most)) ==> (NotSent !in results <==> Cost(0, texts) <= old(Spare(a))))
    ensures old(Ready(a, most)) && a.kernel.db.faults == old(a.kernel.db.faults)
            && old(Prepared(b, a.guid, most)) && old(b.kernel.db.Clean()) && b.kernel.db.faults == old(b.kernel.db.faults) ==>
      && (Cost(a.kernel.cacheKeySize, texts) <= old(Unallocated(a)) ==>
            AllDelivered(texts, results) && b.choices <= old(b.choices) + 1)
      && (old(Careful(a, most)) ==> (AllDelivered(texts, results) <==> Cost(0, texts) <= old(Spare(a))))
  {
    hide Session.Valid, Inv, PadsFit, Linked, Prepared, Ready, CanSend, Unallocated, Sent, Cost, AllDelivered, Underway;
    hide Undelivered, Careful, Spare;
    results := [];
    LinkedValid(a, b);
    ghost var prepared, ready := Prepared(b, a.guid, most) && b.kernel.db.Clean(), Ready(a, most);
    ghost var budget := BudgetOf(a, texts, most);
    UnderwayStart(a, texts, most);
    NoneUndelivered(results);
    for i := 0 to |texts|
      invariant Linked(a, b) && |results| == i && (a.body == old(a.body) || fresh(a.body))
      invariant forall j :: 0 <= j < i && results[j].Delivered? ==> results[j].text == texts[j]
      invariant b.choices <= old(b.choices) + Undelivered(results) + (if b.guid == a.guid then 1 else 0)
      invariant old(b.guid) == a.guid ==> b.guid == a.guid && b.choices == old(b.choices)
      invariant old(a.kernel.db.faults) <= a.kernel.db.faults && old(b.kernel.db.faults) <= b.kernel.db.faults
      invariant prepared && b.kernel.db.faults == old(b.kernel.db.faults) ==>
        Lost !in results && Prepared(b, a.guid, most) && b.kernel.db.Clean()
      invariant ready && a.kernel.db.faults == old(a.kernel.db.faults) ==>
        Underway(a, texts[i..], most, budget, NotSent in results)
    {
      ghost var onWay := ready && a.kernel.db.faults == old(a.kernel.db.faults);
      ghost var refused, able, before := NotSent in results, CanSend(a, |texts[i]|), Unallocated(a);
      ghost var careful, spare := Careful(a, most), Spare(a);
      if onWay {
        UnderwaySays(a, texts[i..], most, budget, refused);
      }
      var delivery := Relay(a, b, texts[i], most);
      assert texts[i..][0] == texts[i] && texts[i..][1..] == texts[i + 1..];
      if onWay && a.kernel.db.faults == old(a.kernel.db.faults) {
        UnderwayNext(a, texts[i..], most, budget, refused, able, before, careful, spare, delivery != NotSent);
      }
      Counted(results, delivery);
      results := results + [delivery];
    }
    LinkedValid(a, b);
    UnderwayEnd(a, texts[|texts|..], most, budget, NotSent in results);
    Outcomes(texts, results);
  }

  lemma UnderwayStart(a: AcpSession, texts: seq<seq<byte>>, most: nat)
    ensures Ready(a, most) ==> Underway(a, texts, most, BudgetOf(a, texts, most), false)
    ensures texts[0..] == texts
  {
  }

  lemma UnderwaySays(a: AcpSession, rest: seq<seq<byte>>, most: nat, b: Budget, refused: bool)
    requires Underway(a, rest, most, b, refused)
    ensures Ready(a, most)
    ensures b.cost <= b.unallocated ==> !refused && Cost(a.kernel.cacheKeySize, rest) <= Unallocated(a)
    ensures b.careful ==>
      && Careful(a, most)
      && (if refused then b.spare < b.length else Spare(a) - Cost(0, rest) == b.spare - b.length)
  {
  }

  lemma UnderwayEnd(a: AcpSession, rest: seq<seq<byte>>, most: nat, b: Budget, refused: bool)
    requires a.Valid() && rest == []
    ensures Underway(a, rest, most, b, refused) ==>
      (b.cost <= b.unallocated ==> !refused) && (b.careful ==> (refused <==> b.spare < b.length))
  {
    hide Session.Valid, Ready;
    KeysKept(a.kernel);
    if a.kernel.keyId.Some? && a.kernel.keyId.value in a.kernel.db.committed {
      TopIsUsed(a.kernel, a.kernel.keyId.value);
    }
  }

  /** Every message arrives exactly when none was refused and none was lost. */
  lemma Outcomes(texts: seq<seq<byte>>, results: seq<Delivery>)
    requires |results| == |texts|
    requires forall i :: 0 <= i < |texts| && results[i].Delivered? ==> results[i].text == texts[i]
    ensures AllDelivered(texts, results) <==> NotSent !in results && Lost !in results
    ensures NotSent !in results && Lost !in results ==> Undelivered(results) == 0
  {
    if NotSent !in results && Lost !in results {
      NoneUndelivered(results);
      forall i | 0 <= i < |texts|
        ensures results[i] == Delivered(texts[i])
      {
        assert results[i] in results;
      }
    }
  }
}
