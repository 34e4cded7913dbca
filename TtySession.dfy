/** The server's TTY session memory (`Session` in the server's tunneling
    code): every chunk of terminal output the session relays is appended to
    a replay buffer that keeps only the most recent `MEMORY_SIZE` bytes, so
    that a terminal joining later can be shown the recent screen. */
module TtySession {
  import opened Common

  const MEMORY_SIZE: nat := 16392

  /** The last `n` elements of `s`, or all of `s` when it is shorter. */
  function Tail(s: seq<byte>, n: nat): (r: seq<byte>)
    ensures |r| <= n
  {
    if |s| <= n then s else s[|s| - n..]
  }

  /** All chunks, one after another. */
  function Concat(chunks: seq<seq<byte>>): seq<byte> {
    if chunks == [] then [] else Concat(chunks[..|chunks| - 1]) + chunks[|chunks| - 1]
  }

  lemma ConcatNext(chunks: seq<seq<byte>>, data: seq<byte>)
    ensures Concat(chunks + [data]) == Concat(chunks) + data
  {
    assert (chunks + [data])[..|chunks|] == chunks;
  }

  /** Keeping the tail of a prefix and then the tail of that plus more is
      keeping the tail of the whole: trimming after every chunk loses
      nothing the final tail needs. */
  lemma TailOfTail(s: seq<byte>, t: seq<byte>, n: nat)
    ensures Tail(Tail(s, n) + t, n) == Tail(s + t, n)
  {
    if |s| > n {
      var u := Tail(s, n) + t;
      var w := s + t;
      assert |u| == n + |t|;
      if |u| > n {
        assert Tail(u, n) == u[|t|..];
        assert Tail(w, n) == w[|s| + |t| - n..];
        forall i | 0 <= i < n
          ensures Tail(u, n)[i] == Tail(w, n)[i]
        {
          if i < n - |t| {
            assert u[|t| + i] == s[|s| - n + |t| + i];
          }
        }
      }
    }
  }

  /** What trimming removes is a prefix, and only the excess over `n`. */
  lemma TailIsSuffix(s: seq<byte>, n: nat)
    ensures var r := Tail(s, n);
      s == s[..|s| - |r|] + r && |r| == (if |s| <= n then |s| else n)
  {
  }

  class Session {
    /** The replay buffer. */
    var memory: seq<byte>
    /** Every chunk received so far, in order. */
    ghost var received: seq<seq<byte>>

    /** The buffer holds the last `MEMORY_SIZE` bytes of everything
        received. */
    ghost predicate Valid()
      reads this
    {
      memory == Tail(Concat(received), MEMORY_SIZE)
    }

    /** A new session's memory is empty. */
    constructor ()
      ensures Valid() && memory == [] && received == []
    {
      memory := [];
      received := [];
    }

    /** One turn of `memory_monitor`: append the chunk, then drain the
        excess over `MEMORY_SIZE` from the front. */
    method Receive(data: seq<byte>)
      requires Valid()
      modifies this
      ensures received == old(received) + [data]
      ensures memory == Tail(old(memory) + data, MEMORY_SIZE)
      ensures |memory| <= MEMORY_SIZE
      ensures Valid()
    {
      var mem := memory + data;
      if |mem| > MEMORY_SIZE {
        var excess := |mem| - MEMORY_SIZE;
        mem := mem[excess..];
      }
      memory := mem;
      received := received + [data];
      ConcatNext(old(received), data);
      TailOfTail(Concat(old(received)), data, MEMORY_SIZE);
    }

    /** `memory_monitor`: handles the chunks the channel delivers, in order.
        The loop ends for good on the first receive error, whether the
        channel closed or this receiver lagged behind; the memory then
        stays as it is. `chunks` is what was delivered before that. */
    method MemoryMonitor(chunks: seq<seq<byte>>)
      requires Valid()
      modifies this
      ensures received == old(received) + chunks
      ensures Valid()
    {
      var i := 0;
      while i < |chunks|
        invariant 0 <= i <= |chunks|
        invariant received == old(received) + chunks[..i]
        invariant Valid()
      {
        Receive(chunks[i]);
        assert chunks[..i + 1] == chunks[..i] + [chunks[i]];
        i := i + 1;
      }
      assert chunks[..i] == chunks;
    }

    /** `get_memory_snaphot`: a copy of the buffer; the session is left as
        it was. */
    method GetMemorySnapshot() returns (snapshot: seq<byte>)
      requires Valid()
      ensures snapshot == Tail(Concat(received), MEMORY_SIZE)
      ensures |snapshot| <= MEMORY_SIZE
    {
      snapshot := memory;
    }
  }
}
