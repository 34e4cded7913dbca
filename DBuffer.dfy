/** The agent's fixed-capacity byte buffer (`buffer_t`): a block of `capacity`
    bytes of which the first `offset` are in use. Writes append whole or not at
    all; clearing makes the whole block available again. */
module DBuffer {
  import opened Common

  class Buffer {
    var capacity: nat
    var offset: nat
    var memory: array?<byte>

    /** The memory block has exactly `capacity` bytes, and only a freed buffer
        (capacity 0) has none. */
    ghost predicate Valid()
      reads this
    {
      offset <= capacity &&
      (memory == null ==> capacity == 0 && offset == 0) &&
      (memory != null ==> memory.Length == capacity)
    }

    /** The bytes written since the last clear. */
    ghost function Contents(): seq<byte>
      reads this, memory
      requires Valid()
    {
      if memory == null then [] else memory[..offset]
    }

    /** `buffer_init`. */
    constructor Init(cap: nat)
      ensures Valid() && fresh(memory)
      ensures capacity == cap && offset == 0 && memory != null
      ensures Contents() == []
    {
      capacity := cap;
      offset := 0;
      memory := new byte[cap](_ => 0);
    }

    /** `buffer_free`: releases the block and resets both counters. */
    method Free()
      requires Valid()
      modifies this
      ensures Valid()
      ensures capacity == 0 && offset == 0 && memory == null
      ensures Contents() == []
    {
      memory := null;
      capacity := 0;
      offset := 0;
    }

    /** `buffer_can_write`: whether `len` more bytes fit behind the used ones. */
    predicate CanWrite(len: nat)
      reads this
    {
      offset + len <= capacity
    }

    /** `buffer_is_empty`. */
    predicate IsEmpty()
      reads this
    {
      offset == 0
    }

    /** `buffer_write`: appends `data` when it fits and reports whether it did;
        a write that does not fit changes nothing. */
    method Write(data: seq<byte>) returns (ok: bool)
      requires Valid()
      modifies this`offset, memory
      ensures Valid() && memory == old(memory) && capacity == old(capacity)
      ensures ok == old(CanWrite(|data|))
      ensures ok ==> offset == old(offset) + |data|
      ensures !ok ==> offset == old(offset)
      ensures Contents() == if ok then old(Contents()) + data else old(Contents())
    {
      ok := CanWrite(|data|);
      if !ok || |data| == 0 {
        return;
      }
      var i := 0;
      while i < |data|
        invariant 0 <= i <= |data|
        invariant memory[..offset] == old(memory[..offset])
        invariant memory[offset..offset + i] == data[..i]
        modifies memory
      {
        memory[offset + i] := data[i];
        i := i + 1;
      }
      assert memory[..offset + |data|] == memory[..offset] + memory[offset..offset + |data|];
      offset := offset + |data|;
    }

    /** `buffer_clear`: forgets the contents; the capacity stays. */
    method Clear()
      requires Valid()
      modifies this`offset
      ensures Valid() && offset == 0 && Contents() == []
    {
      offset := 0;
    }
  }

  /** On an empty buffer exactly the writes of at most `capacity` bytes fit. */
  lemma EmptyBufferBound(b: Buffer, len: nat)
    requires b.Valid() && b.IsEmpty()
    ensures b.CanWrite(len) <==> len <= b.capacity
  {
  }
}
