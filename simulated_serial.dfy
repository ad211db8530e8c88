/**
 * The in-memory stand-in for a serial line used by the Peloton simulator:
 * a 15-byte buffer holding one message and a read cursor into it.
 */
module SimulatedSerialPort {
  import opened CTypes

  const BufferSize: nat := 15

  class SimulatedSerial {
    const buf: array<u8>
    var len: u8
    var loc: u8
    const id: u8

    /** The cursor never passes the end of the message, which fits the buffer. */
    ghost predicate Valid()
      reads this
    {
      buf.Length == BufferSize && loc <= len <= BufferSize as int
    }

    /** The bytes still to be read. */
    function Pending(): (pending: seq<u8>)
      reads this, buf
      requires Valid()
    {
      buf[loc..len]
    }

    /** A port with nothing to read. */
    constructor (id: u8)
      ensures Valid() && Pending() == [] && this.id == id && fresh(buf)
    {
      buf := new u8[BufferSize];
      len, loc := 0, 0;
      this.id := id;
    }

    /** Opening the port discards anything unread; the baud rate plays no part. */
    method Begin(rate: int)
      requires buf.Length == BufferSize
      modifies this
      ensures Valid() && Pending() == []
    {
      len := 0;
      loc := 0;
    }

    /** The number of bytes still to be read. */
    method Available() returns (n: int)
      requires Valid()
      ensures n == |Pending()|
      ensures n == 0 <==> Pending() == []
    {
      if loc < len {
        return len - loc;
      } else {
        return 0;
      }
    }

    /** The next byte, consumed; 0xFF when there is none. */
    method Read() returns (b: u8)
      requires Valid()
      modifies this
      ensures Valid()
      ensures old(Pending()) == [] ==> b == 0xFF && unchanged(this)
      ensures old(Pending()) != [] ==> b == old(Pending())[0] && Pending() == old(Pending())[1..]
    {
      var n := Available();
      if n == 0 {
        return 0xFF;
      }
      b := buf[loc];
      loc := loc + 1;
    }

    /** Replaces the buffer with the first `nbytes` bytes of `msg`, at most 15, to be read from the start. */
    method Push(msg: array<u8>, nbytes: u8)
      requires buf.Length == BufferSize && msg != buf
      requires (if nbytes as int > BufferSize then BufferSize else nbytes as int) <= msg.Length
      modifies this, buf
      ensures Valid()
      ensures Pending() == msg[..if nbytes as int > BufferSize then BufferSize else nbytes as int]
    {
      var n := nbytes;
      if n as int > BufferSize {
        n := BufferSize;
      }
      forall i | 0 <= i < n as int {
        buf[i] := msg[i];
      }
      loc := 0;
      len := n;
    }
  }
}
