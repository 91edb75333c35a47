/**
  The serial transport the manager drives, reduced to what the manager can
  observe: whether the port is open, the speed the line actually runs at,
  everything written so far, and the receiver on the far end.

  The receiver is an oracle: given every write so far (each with the line
  speed it went out at), it yields the chunks the background reader collects
  in answer to the latest one. The reader's work is folded into `Write`, which
  hands that reply back so the manager can queue it.
 */
module Serial {

  import opened Wrappers
  import opened Bytes

  /** The exceptions the core can raise or catch. */
  datatype Exception = SerialException | ValueError

  /** One `write` on the wire: the bytes and the line speed they went out at. */
  datatype Transmission = Transmission(baud: int, data: seq<Byte>)

  /** The receiver: its reply to the latest of the transmissions it has seen. */
  type Device = seq<Transmission> -> seq<Chunk>

  /** The receiver's reply once it has seen `history`. */
  function Reply(d: Device, history: seq<Transmission>): seq<Chunk>
  {
    d(history)
  }

  /** What assigning `baudrate` on a port raises, if anything: a negative speed
      is refused outright, and an open port is taken to refuse a speed its
      driver cannot configure with `SerialException`, the exception the
      handler of `check_baudrate` (GNSSManager.py:164) expects. */
  function SpeedError(isOpen: bool, supported: set<int>, b: int): Option<Exception>
  {
    if b < 0 then Some(ValueError)
    else if isOpen && b !in supported then Some(SerialException)
    else None
  }

  class Port {
    var isOpen: bool
    /** The speed the line runs at. */
    var baudrate: int
    /** Every write made on this port, oldest first. */
    var written: seq<Transmission>
    const device: Device
    /** The speeds the driver can configure on this port. */
    const supported: set<int>

    /** A successful `serial.Serial(port, baudrate, ...)`: open at the given speed. */
    constructor Open(baudrate: int, device: Device, supported: set<int>)
      requires SpeedError(true, supported, baudrate).None?
      ensures isOpen && this.baudrate == baudrate && written == []
      ensures this.device == device && this.supported == supported
    {
      isOpen := true;
      this.baudrate := baudrate;
      written := [];
      this.device := device;
      this.supported := supported;
    }

    /** `port.baudrate = b`: the line moves to `b` unless the assignment raises. */
    method SetBaudrate(b: int) returns (raised: Option<Exception>)
      modifies this`baudrate
      ensures raised == SpeedError(isOpen, supported, b)
      ensures baudrate == if raised.None? then b else old(baudrate)
    {
      raised := SpeedError(isOpen, supported, b);
      if raised.None? {
        baudrate := b;
      }
    }

    /** `port.write(data)` at the current speed; `reply` is what the receiver
        sends back, as the background reader will collect it. */
    method Write(data: seq<Byte>) returns (reply: seq<Chunk>)
      requires isOpen
      modifies this`written
      ensures written == old(written) + [Transmission(baudrate, data)]
      ensures reply == Reply(device, written)
    {
      written := written + [Transmission(baudrate, data)];
      reply := Reply(device, written);
    }

    /** `port.close()`. */
    method Close()
      modifies this`isOpen
      ensures !isOpen
    {
      isOpen := false;
    }
  }
}
