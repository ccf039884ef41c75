/**
 * `BufferToWrite`: the reply a connection still has to send. It holds the whole
 * byte buffer, the offset up to which it has been written, and whether a one-shot
 * callback is waiting to run once everything is sent (the callback's code is
 * not modelled, only its presence). The struct is the same in both versions of
 * the server.
 */
module Buffer {
  import opened Text

  /** `b` is as `BufferToWrite::new(vector)` leaves it: all of `vector` pending, no callback. */
  ghost predicate IsNewBuffer(b: BufferToWrite, vector: seq<byte>)
    reads b
  {
    b.buffer == vector && b.offset == 0 && !b.hasCallback
  }

  class BufferToWrite {
    var buffer: seq<byte>
    var offset: nat
    var hasCallback: bool

    /** The offset never runs past the end of the buffer. */
    ghost predicate Valid()
      reads this
    {
      offset <= |buffer|
    }

    /** The bytes not yet written. */
    ghost function Pending(): seq<byte>
      reads this
      requires Valid()
    {
      buffer[offset..]
    }

    /** `BufferToWrite::default`: nothing to send, no callback. */
    constructor Default()
      ensures buffer == [] && offset == 0 && !hasCallback
      ensures Valid() && Pending() == []
    {
      buffer := [];
      offset := 0;
      hasCallback := false;
    }

    /** `BufferToWrite::new`: the whole vector is pending, no callback. */
    constructor New(vector: seq<byte>)
      ensures buffer == vector && offset == 0 && !hasCallback
      ensures Valid() && Pending() == vector
    {
      buffer := vector;
      offset := 0;
      hasCallback := false;
    }

    /** `reset`: replace the buffer and rewind; a waiting callback stays. */
    method Reset(vector: seq<byte>)
      modifies this
      ensures buffer == vector && offset == 0 && hasCallback == old(hasCallback)
      ensures Valid() && Pending() == vector
    {
      buffer := vector;
      offset := 0;
    }

    /** `reset_str`: as `reset`, with the bytes of a `&str`. */
    method ResetStr(s: seq<byte>)
      modifies this
      ensures buffer == s && offset == 0 && hasCallback == old(hasCallback)
      ensures Valid() && Pending() == s
    {
      Reset(s);
    }
  }
}
