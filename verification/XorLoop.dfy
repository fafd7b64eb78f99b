/** The two forms of the pad-mixing loop: byte at a time, and word at a time. */
module XorLoop {
  import opened Bytes

  /** Byte form: out[..count] becomes left[..count] xor right[..count]. The buffers may be the same. */
  method XorBytes(out: array<byte>, left: array<byte>, right: array<byte>, count: nat)
    requires count <= out.Length && count <= left.Length && count <= right.Length
    modifies out
    ensures out[..] == XorSeq(old(left[..count]), old(right[..count])) + old(out[count..])
  {
    XorTail(out, left, right, 0, count);
    assert old(left[0..count]) == old(left[..count]) && old(right[0..count]) == old(right[..count]);
  }

  /** The per-byte loop from position `from` on. */
  method XorTail(out: array<byte>, left: array<byte>, right: array<byte>, from: nat, count: nat)
    requires from <= count <= out.Length && count <= left.Length && count <= right.Length
    modifies out
    ensures out[..] == old(out[..from]) + XorSeq(old(left[from..count]), old(right[from..count])) + old(out[count..])
  {
    var index := from;
    while index < count
      invariant from <= index <= count
      invariant forall k :: 0 <= k < out.Length && !(from <= k < index) ==> out[k] == old(out[k])
      invariant forall k :: from <= k < index ==> out[k] == XorByte(old(left[k]), old(right[k]))
    {
      out[index] := XorByte(left[index], right[index]);
      index := index + 1;
    }
  }

  /** One step of the word loop: load a word from each buffer, combine, store. */
  method XorWord(out: array<byte>, left: array<byte>, right: array<byte>, at: nat, wordSize: nat, order: ByteOrder)
    requires at + wordSize <= out.Length && at + wordSize <= left.Length && at + wordSize <= right.Length
    modifies out
    ensures forall k :: 0 <= k < out.Length && !(at <= k < at + wordSize) ==> out[k] == old(out[k])
    ensures forall k :: at <= k < at + wordSize ==> out[k] == XorByte(old(left[k]), old(right[k]))
  {
    var x, y := left[at..at + wordSize], right[at..at + wordSize];
    var bytes := StoreWord(Xor(LoadWord(x, order), LoadWord(y, order)), wordSize, order);
    XorOfWords(x, y, order);
    assert bytes == XorSeq(x, y);
    forall k | 0 <= k < wordSize {
      out[at + k] := bytes[k];
    }
    forall k | at <= k < at + wordSize
      ensures out[k] == XorByte(old(left[k]), old(right[k]))
    {
      assert out[at + (k - at)] == bytes[k - at] && x[k - at] == old(left[k]) && y[k - at] == old(right[k]);
    }
  }

  /** Word form: whole words of wordSize bytes first, then the remaining bytes one at a time. */
  method XorWords(out: array<byte>, left: array<byte>, right: array<byte>, count: nat,
                  wordSize: nat, order: ByteOrder)
    requires wordSize > 0
    requires count <= out.Length && count <= left.Length && count <= right.Length
    modifies out
    ensures out[..] == XorSeq(old(left[..count]), old(right[..count])) + old(out[count..])
  {
    var index := XorWholeWords(out, left, right, count, wordSize, order);
    ghost var mixed := XorSeq(old(left[..index]), old(right[..index]));
    assert left[index..count] == old(left[index..count]) && right[index..count] == old(right[index..count]);
    assert out[..index] == mixed && out[count..] == old(out[count..]);
    XorTail(out, left, right, index, count);
    XorSeqAppend(old(left[..count]), old(right[..count]), index);
    assert old(left[..count])[..index] == old(left[..index]) && old(right[..count])[..index] == old(right[..index]);
    assert old(left[..count])[index..] == old(left[index..count]) && old(right[..count])[index..] == old(right[index..count]);
  }

  /** The word loop; returns the number of bytes it has covered. */
  method XorWholeWords(out: array<byte>, left: array<byte>, right: array<byte>, count: nat,
                       wordSize: nat, order: ByteOrder) returns (at: nat)
    requires wordSize > 0
    requires count <= out.Length && count <= left.Length && count <= right.Length
    modifies out
    ensures at == (count / wordSize) * wordSize <= count
    ensures forall k :: at <= k < out.Length ==> out[k] == old(out[k])
    ensures forall k :: 0 <= k < at ==> out[k] == XorByte(old(left[k]), old(right[k]))
  {
    var index := 0;
    at := 0;
    while index < count / wordSize
      invariant 0 <= index <= count / wordSize && at == index * wordSize <= count
      invariant forall k :: at <= k < out.Length ==> out[k] == old(out[k])
      invariant forall k :: 0 <= k < at ==> out[k] == XorByte(old(left[k]), old(right[k]))
    {
      WordFits(index, wordSize, count);
      XorWord(out, left, right, at, wordSize, order);
      index := index + 1;
      at := at + wordSize;
    }
  }

  lemma XorSeqAppend(x: seq<byte>, y: seq<byte>, cut: nat)
    requires cut <= |x| == |y|
    ensures XorSeq(x, y) == XorSeq(x[..cut], y[..cut]) + XorSeq(x[cut..], y[cut..])
  {
  }

  lemma WordFits(index: nat, wordSize: nat, count: nat)
    requires wordSize > 0 && index < count / wordSize
    ensures (index + 1) * wordSize == index * wordSize + wordSize <= count
  {
    assert (count / wordSize) * wordSize <= count;
    assert (index + 1) * wordSize <= (count / wordSize) * wordSize;
  }
}
