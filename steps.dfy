/**
  The manager's steps on an open port, as functions of the state they read
  and change. Detection, the settings commands and connecting are built from
  these three: moving the line to a new speed, writing bytes, and probing the
  receiver with the version query.
 */
module Steps {

  import opened Wrappers
  import opened Bytes
  import opened Ack
  import opened Serial

  /** The state of a manager with an open port: the configured speed
      (`self.baudrate`), the speed the line actually runs at, every write so
      far, and the received chunks still queued. */
  datatype Snapshot = Snapshot(baudrate: int, lineBaud: int, written: seq<Transmission>, queue: seq<Chunk>)

  /** The benign query every probe writes. */
  const ProbeCommand: string := "\r\nlog versionb\r\n"

  /** The probe as it goes out on the wire, byte by byte. */
  const ProbeBytes: seq<Byte> :=
    [0x0D, 0x0A, 0x6C, 0x6F, 0x67, 0x20, 0x76, 0x65, 0x72, 0x73, 0x69, 0x6F, 0x6E, 0x62, 0x0D, 0x0A]

  /** `"\r\nlog versionb\r\n".encode()` is `ProbeBytes`. */
  lemma ProbeOnTheWire()
    ensures Encode(ProbeCommand) == ProbeBytes
  {
    assert IsAscii(ProbeCommand) && AsciiBytes(ProbeCommand) == ProbeBytes;
    EncodeAscii(ProbeCommand);
  }

  /** `change_baudrate(b)` on an open port: the configured speed becomes `b`
      first, then the line follows unless setting it raises. */
  function ChangeSpeed(supported: set<int>, st: Snapshot, b: int): (Option<Exception>, Snapshot)
  {
    var raised := SpeedError(true, supported, b);
    (raised, st.(baudrate := b, lineBaud := if raised.None? then b else st.lineBaud))
  }

  /** A write at the current line speed; the receiver's reply is queued behind
      whatever was already there. */
  function WriteLine(d: Device, st: Snapshot, data: seq<Byte>): Snapshot
  {
    var written := st.written + [Transmission(st.lineBaud, data)];
    st.(written := written, queue := st.queue + Reply(d, written))
  }

  /** `check_connection` on an open port: write the probe, then wait `polls`
      polls for the token. */
  function CheckLine(d: Device, st: Snapshot, polls: nat): (bool, Snapshot)
  {
    var sent := WriteLine(d, st, ProbeBytes);
    var w := AwaitAck(sent.queue, polls);
    (w.acked, sent.(queue := w.rest))
  }

  /** A speed an open port accepts. */
  predicate Settable(supported: set<int>, b: int)
  {
    SpeedError(true, supported, b).None?
  }

  /** Moving the line keeps it at a speed the port accepts: it moves only to
      a speed whose assignment did not raise. */
  lemma ChangeSpeedKeepsLineSettable(supported: set<int>, st: Snapshot, b: int)
    requires Settable(supported, st.lineBaud)
    ensures Settable(supported, ChangeSpeed(supported, st, b).1.lineBaud)
    ensures ChangeSpeed(supported, st, b).0.None? <==> 0 <= b && b in supported
  {
  }

  /** A probe writes exactly one transmission, the query at the line speed,
      and moves neither speed. */
  lemma CheckLineWritesProbe(d: Device, st: Snapshot, polls: nat)
    ensures var after := CheckLine(d, st, polls).1;
      && after.written == st.written + [Transmission(st.lineBaud, ProbeBytes)]
      && after.baudrate == st.baudrate && after.lineBaud == st.lineBaud
  {
  }

  /** On an empty queue, a probe succeeds only on the receiver's own answer
      to it. */
  lemma ProbeNeedsAnswer(d: Device, st: Snapshot, polls: nat)
    requires st.queue == [] && CheckLine(d, st, polls).0
    ensures var after := CheckLine(d, st, polls).1;
      && after.written == st.written + [Transmission(st.lineBaud, ProbeBytes)]
      && !NoAck(Reply(d, after.written))
  {
    var written := st.written + [Transmission(st.lineBaud, ProbeBytes)];
    var q := st.queue + Reply(d, written);
    AwaitAckIff(q, polls);
    var k :| 0 <= k < Min(|q|, polls) && HasAck(q[k]);
    assert q == Reply(d, written);
  }
}
