/**
 * The stream encoder behind a factory. The compression itself is not
 * modelled: the encoder records the bytes it is given, in order, and whether
 * it has been closed. An encoder may be one whose every write fails (its
 * output cannot be delivered).
 */
module Encoders {
  import opened Base

  /** What calling an encoder factory does: refuse, or build an encoder. */
  datatype Behaviour = Refuses | Builds(writesFail: bool)

  /** The outcome of a Write: Go's (n, nil), (0, err), or a runtime panic. */
  datatype WriteResult = Ok(n: nat) | Err | Panic

  class StreamEncoder {
    var received: seq<byte>
    var closed: bool
    const failing: bool

    constructor (failing: bool)
      ensures received == [] && !closed && this.failing == failing
    {
      received, closed, this.failing := [], false, failing;
    }

    method Write(chunk: seq<byte>) returns (r: WriteResult)
      modifies this
      ensures failing ==> r == Err && received == old(received)
      ensures !failing ==> r == Ok(|chunk|) && received == old(received) + chunk
      ensures closed == old(closed)
    {
      if failing {
        r := Err;
      } else {
        received := received + chunk;
        r := Ok(|chunk|);
      }
    }

    method Close()
      modifies this
      ensures closed && received == old(received)
    {
      closed := true;
    }
  }
}
