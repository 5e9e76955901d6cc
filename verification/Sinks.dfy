/** The client side of a stream writer, as far as the writers can see it. */
module Sinks {
  import opened Bytes

  /** A destination that takes whole writes until it breaks, and nothing afterwards. */
  class Sink {
    var bytes: seq<byte>
    var room: nat

    constructor (room: nat)
      ensures bytes == [] && this.room == room
    {
      bytes, this.room := [], room;
    }

    /** room counts the writes that will still succeed. */
    method Write(p: seq<byte>) returns (ok: bool)
      modifies this
      ensures ok == (old(room) > 0)
      ensures bytes == if ok then old(bytes) + p else old(bytes)
      ensures room == if ok then old(room) - 1 else old(room)
    {
      ok := room > 0;
      if ok {
        bytes, room := bytes + p, room - 1;
      }
    }
  }
}
