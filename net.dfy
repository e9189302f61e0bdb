/** A TCP client socket, reduced to its endpoint and whether it was ended or closed. */
module Net {

  class Socket {
    const host: string
    const port: int
    /** `end()` has been called on this socket. */
    var ended: bool
    /** The socket has emitted its `close` event. */
    var closed: bool

    /** `new Socket()` followed by `connect(port, host)`. */
    constructor (host: string, port: int)
      ensures this.host == host && this.port == port
      ensures !ended && !closed
    {
      this.host := host;
      this.port := port;
      ended := false;
      closed := false;
    }

    /** `end()`: half-closes the socket; it does not emit `close` by itself. */
    method End()
      modifies this
      ensures ended && closed == old(closed)
    {
      ended := true;
    }
  }
}
