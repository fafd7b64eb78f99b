/** The methods that write a header into a buffer and read it back, field by field. */
module HeaderCodec {
  import opened Results
  import opened Bytes
  import opened Words
  import opened Headers

  /** `now` is `was` with `value` written at `at`. */
  ghost predicate Put(was: seq<byte>, now: seq<byte>, at: nat, value: seq<byte>)
  {
    at + |value| <= |was| && now == was[..at] + value + was[at + |value|..]
  }

  lemma PutAfter(s0: seq<byte>, s1: seq<byte>, s2: seq<byte>, at: nat, first: seq<byte>, second: seq<byte>)
    requires Put(s0, s1, at, first) && Put(s1, s2, at + |first|, second)
    ensures Put(s0, s2, at, first + second)
  {
    assert s1[..at + |first|] == s0[..at] + first;
    assert s1[at + |first| + |second|..] == s0[at + |first| + |second|..];
  }

  lemma PutNothing(s: seq<byte>, at: nat)
    requires at <= |s|
    ensures Put(s, s, at, [])
  {
  }

  /** Writes a value at the cursor, unless it would pass the end. */
  method WriteToNetBuffer(buffer: array<byte>, size: nat, at: nat, value: seq<byte>) returns (code: Code, next: nat)
    requires size <= buffer.Length
    modifies buffer
    ensures code == if at + |value| <= size then Ok else Overflow
    ensures code == Ok ==> next == at + |value| && Put(old(buffer[..]), buffer[..], at, value)
    ensures code != Ok ==> next == at && buffer[..] == old(buffer[..])
  {
    if at + |value| > size {
      return Overflow, at;
    }
    forall k | 0 <= k < |value| {
      buffer[at + k] := value[k];
    }
    assert buffer[at..at + |value|] == value;
    assert buffer[..at] == old(buffer[..at]) && buffer[at + |value|..] == old(buffer[at + |value|..]);
    return Ok, at + |value|;
  }

  /** Reads n bytes at the cursor, unless the buffer ends before them. */
  method ReadFromNetBuffer(buffer: array<byte>, size: nat, at: nat, n: nat) returns (code: Code, next: nat, value: seq<byte>)
    requires size <= buffer.Length
    ensures code == if at + n <= size then Ok else Overflow
    ensures code == Ok ==> next == at + n && value == buffer[..size][at..at + n]
    ensures code != Ok ==> next == at
  {
    if at + n > size {
      return Overflow, at, [];
    }
    assert buffer[..size][at..at + n] == buffer[at..at + n];
    return Ok, at + n, buffer[at..at + n];
  }

  /** Writing nothing always succeeds, even where the cursor is beyond the size. */
  function WriteStatus(size: nat, at: nat, n: nat): Code
  {
    if n == 0 || at + n <= size then Ok else Overflow
  }

  lemma WithNothing(flags: bv32)
    ensures With(flags, 0) == flags
  {
  }

  method WriteKernel(h: Header, buffer: array<byte>, size: nat, at: nat, flags: bv32, order: ByteOrder)
    returns (code: Code, next: nat, f: bv32)
    requires size <= buffer.Length
    modifies buffer
    ensures code == WriteStatus(size, at, |KernelBytes(h, order)|)
    ensures code == Ok ==> f == With(flags, If(h.kernel != GUID_NULL, KERNEL_IDENTIFIER))
    ensures code == Ok ==> next == at + |KernelBytes(h, order)|
    ensures code == Ok && at <= buffer.Length ==> Put(old(buffer[..]), buffer[..], at, KernelBytes(h, order))
    ensures buffer[size..] == old(buffer[size..])
  {
    hide Image32, With;
    WithNothing(flags);
    code, next, f := Ok, at, flags;
    if h.kernel != GUID_NULL {
      f := With(f, KERNEL_IDENTIFIER);
      code, next := WriteToNetBuffer(buffer, size, next, h.kernel);
      if code != Ok {
        return;
      }
      ghost var middle := buffer[..];
      code, next := WriteToNetBuffer(buffer, size, next, Image32(h.waldo, order));
      if code != Ok {
        return;
      }
      PutAfter(old(buffer[..]), middle, buffer[..], at, h.kernel, Image32(h.waldo, order));
    }
  }

  method WriteKey(h: Header, buffer: array<byte>, size: nat, at: nat, flags: bv32)
    returns (code: Code, next: nat, f: bv32)
    requires size <= buffer.Length
    modifies buffer
    ensures code == WriteStatus(size, at, |IdentifierBytes(h)|)
    ensures code == Ok ==> f == With(flags, If(h.key != GUID_NULL, KEY_IDENTIFIER))
    ensures code == Ok ==> next == at + |IdentifierBytes(h)|
    ensures code == Ok && at <= buffer.Length ==> Put(old(buffer[..]), buffer[..], at, IdentifierBytes(h))
    ensures buffer[size..] == old(buffer[size..])
  {
    code, next, f := Ok, at, flags;
    if h.key != GUID_NULL {
      f := With(f, KEY_IDENTIFIER);
      code, next := WriteToNetBuffer(buffer, size, next, h.key);
    }
  }

  /** Writes a number in its narrowest form; the caller flags the width. */
  method WriteNumber(v: uint64, buffer: array<byte>, size: nat, at: nat, order: ByteOrder)
    returns (code: Code, next: nat, width: Width)
    requires size <= buffer.Length
    modifies buffer
    ensures code == WriteStatus(size, at, Size(WidthOf(v)))
    ensures width == WidthOf(v)
    ensures code == Ok ==> next == at + Size(width)
    ensures code == Ok && at <= buffer.Length ==> Put(old(buffer[..]), buffer[..], at, NumberBytes(v, order))
    ensures buffer[size..] == old(buffer[size..])
  {
    hide WidthOf, StoreWord;
    width := WidthOf(v);
    code, next := Ok, at;
    if width != W0 {
      code, next := WriteToNetBuffer(buffer, size, at, StoreWord(v, Size(width), order));
    } else if at <= buffer.Length {
      PutNothing(buffer[..], at);
    }
  }

  method WriteAlgorithm(h: Header, buffer: array<byte>, size: nat, at: nat, flags: bv32)
    returns (code: Code, next: nat, f: bv32)
    requires size <= buffer.Length
    modifies buffer
    ensures code == WriteStatus(size, at, |AlgorithmBytes(h)|)
    ensures code == Ok ==> f == With(flags, If(h.algorithm != 0, ALGORITHM))
    ensures code == Ok ==> next == at + |AlgorithmBytes(h)|
    ensures code == Ok && at <= buffer.Length ==> Put(old(buffer[..]), buffer[..], at, AlgorithmBytes(h))
    ensures buffer[size..] == old(buffer[size..])
  {
    code, next, f := Ok, at, flags;
    if h.algorithm != 0 {
      f := With(f, ALGORITHM);
      code, next := WriteToNetBuffer(buffer, size, next, [LowByte(h.algorithm)]);
    }
  }

  /** Writes the identifiers, which come first. */
  method WriteIdentifiers(h: Header, buffer: array<byte>, size: nat, order: ByteOrder)
    returns (code: Code, next: nat, flags: bv32)
    requires size <= buffer.Length
    modifies buffer
    ensures code == WriteStatus(size, FLAGS_SIZE, |KernelBytes(h, order)| + |IdentifierBytes(h)|)
    ensures code == Ok ==>
      flags == With(With(ENFORCE_DIGITAL, If(h.kernel != GUID_NULL, KERNEL_IDENTIFIER)), If(h.key != GUID_NULL, KEY_IDENTIFIER))
    ensures code == Ok ==> next == FLAGS_SIZE + |KernelBytes(h, order)| + |IdentifierBytes(h)|
    ensures code == Ok && FLAGS_SIZE <= buffer.Length ==>
      Put(old(buffer[..]), buffer[..], FLAGS_SIZE, KernelBytes(h, order) + IdentifierBytes(h))
    ensures buffer[size..] == old(buffer[size..])
  {
    hide Put, KernelBytes, IdentifierBytes, If, With;
    ghost var s0 := buffer[..];
    flags := ENFORCE_DIGITAL;
    code, next, flags := WriteKernel(h, buffer, size, FLAGS_SIZE, flags, order);
    if code != Ok {
      return;
    }
    ghost var s1 := buffer[..];
    code, next, flags := WriteKey(h, buffer, size, next, flags);
    if code == Ok && FLAGS_SIZE <= buffer.Length {
      PutAfter(s0, s1, buffer[..], FLAGS_SIZE, KernelBytes(h, order), IdentifierBytes(h));
    }
  }

  /** Writes the offset and the length, each in its narrowest form. */
  method WriteNumbers(h: Header, buffer: array<byte>, size: nat, at: nat, was: bv32, order: ByteOrder)
    returns (code: Code, next: nat, flags: bv32)
    requires size <= buffer.Length
    modifies buffer
    ensures code == WriteStatus(size, at, |NumberBytes(h.offset, order)| + |NumberBytes(h.length, order)|)
    ensures code == Ok ==> flags == With(With(was, OffsetFlag(WidthOf(h.offset))), LengthFlag(WidthOf(h.length)))
    ensures code == Ok ==> next == at + |NumberBytes(h.offset, order)| + |NumberBytes(h.length, order)|
    ensures code == Ok && at <= buffer.Length ==>
      Put(old(buffer[..]), buffer[..], at, NumberBytes(h.offset, order) + NumberBytes(h.length, order))
    ensures buffer[size..] == old(buffer[size..])
  {
    hide Put, NumberBytes, With, OffsetFlag, LengthFlag, WidthOf;
    ghost var s0 := buffer[..];
    var width;
    code, next, width := WriteNumber(h.offset, buffer, size, at, order);
    flags := With(was, OffsetFlag(width));
    if code != Ok {
      return;
    }
    ghost var s1 := buffer[..];
    code, next, width := WriteNumber(h.length, buffer, size, next, order);
    flags := With(flags, LengthFlag(width));
    if code == Ok && at <= buffer.Length {
      PutAfter(s0, s1, buffer[..], at, NumberBytes(h.offset, order), NumberBytes(h.length, order));
    }
  }

  /** Writes the fields behind the leading word, which is left for last, and collects its flags on the way. */
  method WriteFields(h: Header, buffer: array<byte>, size: nat, order: ByteOrder)
    returns (code: Code, next: nat, flags: bv32)
    requires size <= buffer.Length
    modifies buffer
    ensures code == WriteStatus(size, FLAGS_SIZE, |Fields(h, order)|)
    ensures code == Ok ==> flags == FlagWord(ShapeOf(h)) && next == FLAGS_SIZE + |Fields(h, order)|
    ensures code == Ok && FLAGS_SIZE <= buffer.Length ==> Put(old(buffer[..]), buffer[..], FLAGS_SIZE, Fields(h, order))
    ensures buffer[size..] == old(buffer[size..])
  {
    hide Put, KernelBytes, IdentifierBytes, NumberBytes, AlgorithmBytes, If, With, OffsetFlag, LengthFlag, WidthOf;
    ghost var s0 := buffer[..];
    code, next, flags := WriteIdentifiers(h, buffer, size, order);
    if code != Ok {
      return;
    }
    ghost var s1 := buffer[..];
    code, next, flags := WriteNumbers(h, buffer, size, next, flags, order);
    if code != Ok {
      return;
    }
    ghost var s2 := buffer[..];
    flags := With(With(flags, If(h.decryptOnce, DECRYPT_ONCE)), If(h.verifyKey, VERIFY_KEY));
    code, next, flags := WriteAlgorithm(h, buffer, size, next, flags);
    if code != Ok {
      return;
    }
    flags := With(With(flags, If(h.endChain, END_CHAIN)), If(h.trailer, TRAILER));
    if FLAGS_SIZE <= buffer.Length {
      PutFields(h, order, s0, s1, s2, buffer[..]);
    }
  }

  lemma PutFields(h: Header, order: ByteOrder, s0: seq<byte>, s1: seq<byte>, s2: seq<byte>, s3: seq<byte>)
    requires var identifiers := KernelBytes(h, order) + IdentifierBytes(h);
      var numbers := NumberBytes(h.offset, order) + NumberBytes(h.length, order);
      && Put(s0, s1, FLAGS_SIZE, identifiers)
      && Put(s1, s2, FLAGS_SIZE + |identifiers|, numbers)
      && Put(s2, s3, FLAGS_SIZE + |identifiers| + |numbers|, AlgorithmBytes(h))
    ensures Put(s0, s3, FLAGS_SIZE, Fields(h, order))
  {
    hide Put, KernelBytes, IdentifierBytes, NumberBytes, AlgorithmBytes;
    var kernel, key, offset := KernelBytes(h, order), IdentifierBytes(h), NumberBytes(h.offset, order);
    var length, algorithm := NumberBytes(h.length, order), AlgorithmBytes(h);
    PutAfter(s1, s2, s3, FLAGS_SIZE + |kernel + key|, offset + length, algorithm);
    PutAfter(s0, s1, s3, FLAGS_SIZE, kernel + key, (offset + length) + algorithm);
    assert (kernel + key) + ((offset + length) + algorithm) == kernel + (key + (offset + (length + algorithm)));
  }

  /** Is the size of the buffer compared with anything? Not when there is nothing to write behind the flags. */
  predicate SizeMatters(h: Header, order: ByteOrder)
  {
    h.isInternal || Fields(h, order) != []
  }

  /**
   Writes the header into the buffer and returns its size. It fails only when the header does not fit; nothing behind
   the header is touched. A header of flags alone is written whatever size is given, as long as there is memory.
   */
  method StructureToBuffer(h: Header, buffer: array<byte>, size: nat, order: ByteOrder) returns (code: Code, written: nat)
    requires size <= buffer.Length && (SizeMatters(h, order) || FLAGS_SIZE <= buffer.Length)
    modifies buffer
    ensures code == if SizeMatters(h, order) && size < |Encode(h, order)| then Overflow else Ok
    ensures code == Ok ==> written == |Encode(h, order)| && buffer[..] == Encode(h, order) + old(buffer[written..])
    ensures code != Ok ==> written == size
    ensures written <= size ==> buffer[size..] == old(buffer[size..])
  {
    hide FlagWord, ShapeOf, Fields, FlagBytes, WordOf;
    ghost var s0 := buffer[..];
    var at, flags;
    if h.isInternal {
      flags := WithMiddle(WordOf(LowHalf(h.offset)));
      code, at := WriteToNetBuffer(buffer, size, 0, FlagBytes(flags, order));
      return code, if code == Ok then at else size;
    }
    code, at, flags := WriteFields(h, buffer, size, order);
    if code != Ok {
      return code, size;
    }
    written := at;
    code, at := WriteToNetBuffer(buffer, written, 0, FlagBytes(flags, order));
    FlagsLast(s0, Fields(h, order), FlagBytes(flags, order));
  }

  lemma FlagsLast(s0: seq<byte>, fields: seq<byte>, flags: seq<byte>)
    requires |flags| == FLAGS_SIZE && FLAGS_SIZE + |fields| <= |s0|
    ensures var s1 := s0[..FLAGS_SIZE] + fields + s0[FLAGS_SIZE + |fields|..];
      s1[..0] + flags + s1[|flags|..] == (flags + fields) + s0[FLAGS_SIZE + |fields|..]
  {
  }

  /** Reads a number of the flagged width. */
  method ReadNumber(width: Width, buffer: array<byte>, size: nat, at: nat, order: ByteOrder)
    returns (code: Code, next: nat, v: uint64)
    requires at <= size <= buffer.Length
    ensures code == if at + Size(width) <= size then Ok else Overflow
    ensures code == Ok ==> next == at + Size(width) && v == Number(width, buffer[..size][at..next], order)
  {
    hide LoadWord;
    if width == W0 {
      return Ok, at, 0;
    }
    var bytes;
    code, next, bytes := ReadFromNetBuffer(buffer, size, at, Size(width));
    v := if code == Ok then Number(width, bytes, order) else 0;
  }

  /** The low byte of the algorithm, when it is flagged. */
  method ReadAlgorithm(buffer: array<byte>, size: nat, at: nat, flags: bv32)
    returns (code: Code, next: nat, algorithm: uint32)
    requires at == AlgorithmAt(ShapeIn(flags)) <= size <= buffer.Length
    ensures code == if Extent(ShapeIn(flags)) <= size then Ok else Overflow
    ensures code == Ok ==> next == Extent(ShapeIn(flags))
    ensures code == Ok ==>
      algorithm == if ShapeIn(flags).algorithm then buffer[..size][at..next][0] else 0
  {
    hide Has, OffsetWidth, LengthWidth, AlgorithmAt;
    code, next, algorithm := Ok, at, 0;
    if Has(flags, ALGORITHM) {
      var bytes;
      code, next, bytes := ReadFromNetBuffer(buffer, size, next, 1);
      algorithm := if code == Ok then bytes[0] else 0;
    }
  }

  lemma ShapeFlags(flags: bv32)
    ensures ShapeIn(flags).decryptOnce == Has(flags, DECRYPT_ONCE) && ShapeIn(flags).verifyKey == Has(flags, VERIFY_KEY)
    ensures ShapeIn(flags).endChain == Has(flags, END_CHAIN) && ShapeIn(flags).trailer == Has(flags, TRAILER)
  {
  }

  lemma PlacesInOrder(x: Shape)
    ensures FLAGS_SIZE <= KeyAt(x) <= OffsetAt(x) <= LengthAt(x) <= AlgorithmAt(x) <= Extent(x)
  {
  }

  /** The fields read one after another are those of the decoded header. */
  lemma HeaderRead(x: Shape, s: seq<byte>, order: ByteOrder, first: Header, second: Header, third: Header, last: Header)
    requires Extent(x) <= |s|
    requires first == ZERO.(
      kernel := if x.kernel then GuidAt(s, FLAGS_SIZE) else GUID_NULL,
      waldo := if x.kernel then Word32(s[20..24], order) else 0,
      key := if x.key then GuidAt(s, KeyAt(x)) else GUID_NULL)
    requires second == first.(
      offset := Number(x.offset, s[OffsetAt(x)..LengthAt(x)], order),
      length := Number(x.length, s[LengthAt(x)..AlgorithmAt(x)], order))
    requires third == second.(
      decryptOnce := x.decryptOnce, verifyKey := x.verifyKey, endChain := x.endChain, trailer := x.trailer)
    requires last == third.(algorithm := if x.algorithm then s[AlgorithmAt(x)..Extent(x)][0] else 0)
    ensures last == DecodeFields(x, s, order).(initialized := false)
  {
  }

  /** The header structure, filled in place. */
  class CipherTextHeader {
    var initialized: bool
    var isInternal: bool
    var kernel: Guid
    var waldo: uint32
    var key: Guid
    var offset: uint64
    var length: uint64
    var decryptOnce: bool
    var verifyKey: bool
    var algorithm: uint32
    var endChain: bool
    var compression: uint32
    var keyChecksum: uint32
    var trailer: bool
    var textChecksum: uint32

    /** The values of all the fields. */
    function Value(): Header
      reads this
    {
      Header(initialized, isInternal, kernel, waldo, key, offset, length, decryptOnce, verifyKey, algorithm,
             endChain, compression, keyChecksum, trailer, textChecksum)
    }

    constructor ()
      ensures Value() == ZERO
    {
      initialized, isInternal, kernel, waldo, key := false, false, GUID_NULL, 0, GUID_NULL;
      offset, length, decryptOnce, verifyKey, algorithm := 0, 0, false, false, 0;
      endChain, compression, keyChecksum, trailer, textChecksum := false, 0, 0, false, 0;
    }

    /** Zeroes every field. */
    method Clear()
      modifies this
      ensures Value() == ZERO
    {
      ClearNumbers();
      initialized := false;
      isInternal := false;
      kernel := GUID_NULL;
      key := GUID_NULL;
      decryptOnce := false;
      verifyKey := false;
      endChain := false;
      trailer := false;
    }

    method ClearNumbers()
      modifies `waldo, `offset, `length, `algorithm, `compression, `keyChecksum, `textChecksum
      ensures waldo == 0 && offset == 0 && length == 0 && algorithm == 0
      ensures compression == 0 && keyChecksum == 0 && textChecksum == 0
    {
      waldo := 0;
      offset := 0;
      length := 0;
      algorithm := 0;
      compression := 0;
      keyChecksum := 0;
      textChecksum := 0;
    }

    method ReadIdentifiers(buffer: array<byte>, size: nat, flags: bv32, order: ByteOrder) returns (code: Code, next: nat)
      requires FLAGS_SIZE <= size <= buffer.Length && Value() == ZERO
      modifies this
      ensures code == if OffsetAt(ShapeIn(flags)) <= size then Ok else Overflow
      ensures code == Ok ==> next == OffsetAt(ShapeIn(flags))
      ensures code == Ok ==> Value() == ZERO.(
        kernel := if ShapeIn(flags).kernel then GuidAt(buffer[..size], FLAGS_SIZE) else GUID_NULL,
        waldo := if ShapeIn(flags).kernel then Word32(buffer[..size][20..24], order) else 0,
        key := if ShapeIn(flags).key then GuidAt(buffer[..size], KeyAt(ShapeIn(flags))) else GUID_NULL)
      ensures !initialized
    {
      hide Has, OffsetWidth, LengthWidth, Word32;
      code, next := Ok, FLAGS_SIZE;
      var bytes;
      if Has(flags, KERNEL_IDENTIFIER) {
        code, next, bytes := ReadFromNetBuffer(buffer, size, next, 16);
        if code != Ok {
          return;
        }
        kernel := bytes;
        code, next, bytes := ReadFromNetBuffer(buffer, size, next, 4);
        if code != Ok {
          return;
        }
        waldo := Word32(bytes, order);
      }
      if Has(flags, KEY_IDENTIFIER) {
        code, next, bytes := ReadFromNetBuffer(buffer, size, next, 16);
        if code != Ok {
          return;
        }
        key := bytes;
      }
    }

    method ReadNumbers(buffer: array<byte>, size: nat, at: nat, flags: bv32, order: ByteOrder) returns (code: Code, next: nat)
      requires at == OffsetAt(ShapeIn(flags)) <= size <= buffer.Length
      modifies this
      ensures code == if AlgorithmAt(ShapeIn(flags)) <= size then Ok else Overflow
      ensures code == Ok ==> next == AlgorithmAt(ShapeIn(flags))
      ensures code == Ok ==> Value() == old(Value()).(
        offset := Number(ShapeIn(flags).offset, buffer[..size][at..LengthAt(ShapeIn(flags))], order),
        length := Number(ShapeIn(flags).length, buffer[..size][LengthAt(ShapeIn(flags))..next], order))
      ensures initialized == old(initialized)
    {
      hide Has, OffsetWidth, LengthWidth, Number, KeyAt;
      var v;
      code, next, v := ReadNumber(OffsetWidth(flags), buffer, size, at, order);
      if code != Ok {
        return;
      }
      offset := v;
      code, next, v := ReadNumber(LengthWidth(flags), buffer, size, next, order);
      if code != Ok {
        return;
      }
      length := v;
    }

    /** The flags that are fields of their own. */
    method SetFlags(flags: bv32)
      modifies `decryptOnce, `verifyKey, `endChain, `trailer
      ensures Value() == old(Value()).(
        decryptOnce := ShapeIn(flags).decryptOnce, verifyKey := ShapeIn(flags).verifyKey,
        endChain := ShapeIn(flags).endChain, trailer := ShapeIn(flags).trailer)
    {
      hide Has, ShapeIn;
      ShapeFlags(flags);
      decryptOnce, verifyKey := Has(flags, DECRYPT_ONCE), Has(flags, VERIFY_KEY);
      endChain, trailer := Has(flags, END_CHAIN), Has(flags, TRAILER);
    }

    /** The low byte of the algorithm, when it is flagged; the field is zero otherwise. */
    method SetAlgorithm(buffer: array<byte>, size: nat, at: nat, flags: bv32) returns (code: Code, next: nat)
      requires at == AlgorithmAt(ShapeIn(flags)) <= size <= buffer.Length
      modifies `algorithm
      ensures code == if Extent(ShapeIn(flags)) <= size then Ok else Overflow
      ensures code == Ok ==> next == Extent(ShapeIn(flags))
      ensures code == Ok ==>
        Value() == old(Value()).(algorithm := if ShapeIn(flags).algorithm then buffer[..size][at..next][0] else 0)
      ensures initialized == old(initialized)
    {
      hide ShapeIn, AlgorithmAt, Extent;
      var byte;
      code, next, byte := ReadAlgorithm(buffer, size, at, flags);
      if code == Ok {
        algorithm := byte;
      }
    }

    method ReadFields(buffer: array<byte>, size: nat, flags: bv32, order: ByteOrder) returns (code: Code, next: nat)
      requires FLAGS_SIZE <= size <= buffer.Length && Value() == ZERO
      modifies this
      ensures code == if Extent(ShapeIn(flags)) <= size then Ok else Overflow
      ensures code == Ok ==> next == Extent(ShapeIn(flags))
      ensures code == Ok ==>
        Value() == DecodeFields(ShapeIn(flags), buffer[..size], order).(initialized := false)
      ensures !initialized
    {
      hide Has, ShapeIn, Word32, Number, KeyAt, OffsetAt, LengthAt, AlgorithmAt, Extent, OffsetWidth, LengthWidth, DecodeFields;
      PlacesInOrder(ShapeIn(flags));
      code, next := ReadIdentifiers(buffer, size, flags, order);
      if code != Ok {
        return;
      }
      ghost var first := Value();
      code, next := ReadNumbers(buffer, size, next, flags, order);
      if code != Ok {
        return;
      }
      ghost var second := Value();
      SetFlags(flags);
      ghost var third := Value();
      code, next := SetAlgorithm(buffer, size, next, flags);
      if code == Ok {
        HeaderRead(ShapeIn(flags), buffer[..size], order, first, second, third, Value());
      }
    }

    /**
     Reads the header at the start of the buffer and returns its size. When the buffer ends before the header
     does, the structure stays uninitialized.
     */
    method BufferToStructure(buffer: array<byte>, size: nat, order: ByteOrder) returns (code: Code, consumed: nat)
      requires size <= buffer.Length
      modifies this
      ensures match Decode(buffer[..size], order)
              case Short => code == Overflow && consumed == size && !initialized
              case Decoded(h, n) => code == Ok && consumed == n && Value() == h
    {
      hide Has, ShapeIn, InternalOffset, FlagsIn, Extent, DecodeFields;
      Clear();
      var at, bytes;
      code, at, bytes := ReadFromNetBuffer(buffer, size, 0, FLAGS_SIZE);
      if code != Ok {
        return code, size;
      }
      assert bytes == buffer[..size][..FLAGS_SIZE];
      var flags := FlagsIn(bytes, order);
      if Has(flags, INTERNAL) {
        isInternal, offset := true, InternalOffset(flags);
      } else {
        code, at := ReadFields(buffer, size, flags, order);
        if code != Ok {
          return code, size;
        }
      }
      initialized := true;
      return Ok, at;
    }
  }
}
