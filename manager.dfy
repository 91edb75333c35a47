/**
  The connection manager of `GNSSManager.py`: one object owning the serial
  port, the configured speed and the queue of received chunks, with the
  acknowledgment wait, the probe, baud-rate detection, the speed-change
  command with rollback, and connect/disconnect. Every method that works on
  an open port is proved against the functions of `Steps`, `Detect` and
  `Settings`, over a `Snapshot` of the object's state.
 */
module Manager {

  import opened Wrappers
  import opened Bytes
  import opened Ack
  import opened Serial
  import opened Steps
  import opened Detect
  import opened Settings

  /** Polls in the three-second probe of `connect`. */
  const ConnectPolls: nat := 15

  /** `connect` once the port is open: a three-second probe at the configured
      speed, then detection if the probe goes unanswered. */
  function ConnectOpen(d: Device, supported: set<int>, cands: seq<int>, st: Snapshot): (bool, Snapshot)
  {
    var (live, checked) := CheckLine(d, st, ConnectPolls);
    if live then (true, checked)
    else
      var p := Scan(d, supported, cands, checked.baudrate, checked);
      (p.detected.Some?, p.after)
  }

  /** A successful connect leaves the configured speed and the line in
      agreement, provided they agreed when the port opened. */
  lemma ConnectAgrees(d: Device, supported: set<int>, cands: seq<int>, st: Snapshot)
    requires st.baudrate == st.lineBaud
    ensures var (ok, after) := ConnectOpen(d, supported, cands, st);
      ok ==> after.baudrate == after.lineBaud
  {
    var (live, checked) := CheckLine(d, st, ConnectPolls);
    ScanStopsAtFirstAck(d, supported, cands, checked.baudrate, checked);
  }

  /** A receiver quiet at the configured speed and at every candidate makes
      connect fail, provided no token is queued when the port opens. */
  lemma ConnectMissesSilentReceiver(d: Device, supported: set<int>, cands: seq<int>, st: Snapshot)
    requires st.baudrate == st.lineBaud
    requires QuietAt(d, [st.lineBaud] + cands) && NoAck(st.queue)
    ensures !ConnectOpen(d, supported, cands, st).0
  {
    ProbeSilentReceiver(d, [st.lineBaud] + cands, st, ConnectPolls);
    var checked := CheckLine(d, st, ConnectPolls).1;
    forall x | x in Skipping(cands, checked.baudrate) ensures x in [st.lineBaud] + cands {
      SkippingMembers(cands, checked.baudrate, x);
    }
    ScanMissesSilentReceiver(d, supported, cands, checked.baudrate, checked);
  }

  /** A receiver listening only at the configured speed, or only at one of the
      candidates the port accepts, is connected to at that speed, provided
      fewer than fifteen stale chunks, none holding the token, are queued. */
  lemma ConnectFindsListener(d: Device, supported: set<int>, cands: seq<int>, st: Snapshot, s: int)
    requires AcksExactlyAt(d, s) && Settable(supported, s)
    requires NoAck(st.queue) && |st.queue| < ConnectPolls
    requires st.baudrate == st.lineBaud && (s == st.lineBaud || s in cands)
    ensures var (ok, after) := ConnectOpen(d, supported, cands, st);
      ok && after.baudrate == s && after.lineBaud == s
  {
    ProbeAgainstListener(d, s, st, ConnectPolls);
    var checked := CheckLine(d, st, ConnectPolls).1;
    if s != st.lineBaud {
      ScanFindsListener(d, supported, cands, checked.baudrate, checked, s);
      ScanStopsAtFirstAck(d, supported, cands, checked.baudrate, checked);
    }
  }

  class GNSSManager {
    const portName: string
    /** The configured speed, `self.baudrate`. */
    var baudrate: int
    /** `self.serial_connection`: no port before the first successful connect. */
    var connection: Port?
    /** `self.data_queue`, oldest chunk first. */
    var queue: seq<Chunk>
    /** The background reader's lifecycle flag. */
    var running: bool
    /** `self.baudrates`: the candidate speeds, in the order they are tried. */
    var baudrates: seq<int>

    /** An open port has its reader running and its line at a speed it
        accepts; the candidate speeds are positive and listed once each. */
    ghost predicate Valid()
      reads this, connection
    {
      && (IsOpen() ==> running && Settable(connection.supported, connection.baudrate))
      && Positive(baudrates)
      && Distinct(baudrates)
    }

    /** `self.serial_connection and self.serial_connection.is_open`. */
    predicate IsOpen()
      reads this, connection
    {
      connection != null && connection.isOpen
    }

    /** The state the methods on an open port read and change. */
    ghost function Snap(): Snapshot
      reads this, connection
      requires connection != null
    {
      Snapshot(baudrate, connection.baudrate, connection.written, queue)
    }

    constructor (portName: string, baudrate: int := 9600)
      ensures Valid()
      ensures this.portName == portName && this.baudrate == baudrate
      ensures connection == null && queue == [] && !running
      ensures baudrates == BaudRates
    {
      this.portName := portName;
      this.baudrate := baudrate;
      connection := null;
      queue := [];
      running := false;
      baudrates := BaudRates;
      BaudRatesDistinct();
    }

    /** `data_queue.empty()`: a query that leaves the queue as it is. */
    method QueueEmpty() returns (empty: bool)
      ensures empty <==> queue == []
    {
      empty := queue == [];
    }

    /** `get_data`: pop the oldest chunk, or `None` on an empty queue. */
    method GetData() returns (data: Option<Chunk>)
      requires Valid()
      modifies this`queue
      ensures Valid()
      ensures old(queue) == [] ==> data == None && queue == []
      ensures old(queue) != [] ==> data == Some(old(queue)[0]) && queue == old(queue)[1..]
    {
      if queue == [] {
        data := None;
      } else {
        data := Some(queue[0]);
        queue := queue[1..];
      }
    }

    /** A write on the open port; the receiver's reply reaches the queue behind
        whatever was already there, in order. */
    method Transmit(data: seq<Byte>)
      requires Valid() && IsOpen()
      modifies this`queue, connection`written
      ensures Valid()
      ensures Snap() == WriteLine(connection.device, old(Snap()), data)
    {
      var reply := connection.Write(data);
      queue := queue + reply;
    }

    /** `send`: a raw write, skipped when the port is not open. */
    method Send(data: seq<Byte>)
      requires Valid()
      modifies this`queue, connection
      ensures Valid()
      ensures connection != null ==> connection.isOpen == old(connection.isOpen) && connection.baudrate == old(connection.baudrate)
      ensures !old(IsOpen()) ==> queue == old(queue) && (connection != null ==> unchanged(connection))
      ensures old(IsOpen()) ==> Snap() == WriteLine(connection.device, old(Snap()), data)
    {
      if IsOpen() {
        Transmit(data);
      }
    }

    /** `change_baudrate`: the configured speed becomes `newBaudrate` first;
        then the port is set, which may raise and leave the line where it was. */
    method ChangeBaudrate(newBaudrate: int) returns (raised: Option<Exception>)
      requires Valid() && connection != null
      modifies this`baudrate, connection`baudrate
      ensures Valid()
      ensures baudrate == newBaudrate
      ensures raised == SpeedError(connection.isOpen, connection.supported, newBaudrate)
      ensures connection.baudrate == if raised.None? then newBaudrate else old(connection.baudrate)
      ensures connection.isOpen ==> (raised, Snap()) == ChangeSpeed(connection.supported, old(Snap()), newBaudrate)
    {
      baudrate := newBaudrate;
      raised := connection.SetBaudrate(newBaudrate);
    }

    /** `wait_for_acknowledgment`: `timeout * 5` polls, one chunk at most per poll. */
    method WaitForAcknowledgment(timeout: nat := 10) returns (acked: bool)
      requires Valid()
      modifies this`queue
      ensures Valid()
      ensures Wait(acked, queue) == AwaitAck(old(queue), timeout * 5)
    {
      var counter := 0;
      while counter < timeout * 5
        invariant 0 <= counter <= timeout * 5
        invariant AwaitAck(old(queue), timeout * 5) == AwaitAck(queue, timeout * 5 - counter)
      {
        var data := GetData();
        if data.Some? && HasAck(data.value) {
          return true;
        }
        counter := counter + 1;
      }
      return false;
    }

    /** `check_connection`: on an open port, write the probe and wait for the token. */
    method CheckConnection(timeout: nat := 10) returns (acked: bool)
      requires Valid()
      modifies this`queue, connection
      ensures Valid()
      ensures connection != null ==> connection.isOpen == old(connection.isOpen) && connection.baudrate == old(connection.baudrate)
      ensures !old(IsOpen()) ==> !acked && queue == old(queue) && (connection != null ==> unchanged(connection))
      ensures old(IsOpen()) ==> (acked, Snap()) == CheckLine(connection.device, old(Snap()), timeout * 5)
    {
      if IsOpen() {
        Transmit(ProbeBytes);
        acked := WaitForAcknowledgment(timeout);
      } else {
        acked := false;
      }
    }

    /** One pass of the `try` block of `check_baudrate`: move the line to
        `baud` and, unless the port refuses it, probe for one second. */
    method TryCandidate(baud: int) returns (probe: Probe)
      requires Valid() && IsOpen() && 0 <= baud
      modifies this`baudrate, this`queue, connection
      ensures Valid() && connection.isOpen
      ensures (probe, Snap()) == TryAt(connection.device, connection.supported, old(Snap()), baud)
    {
      var _ := QueueEmpty();
      var raised := ChangeBaudrate(baud);
      if raised.Some? {
        return Refused;
      }
      var acked := CheckConnection(1);
      probe := Probed(acked);
    }

    /** `check_baudrate`: on an open port, walk the candidates as `Scan`
        does; on a closed one, detect nothing and change nothing. */
    method CheckBaudrate() returns (detected: Option<int>, ghost attempts: seq<Attempt>)
      requires Valid()
      modifies this`baudrate, this`queue, connection
      ensures connection != null ==> connection.isOpen == old(connection.isOpen)
      ensures Valid()
      ensures !old(IsOpen()) ==>
        && detected == None && attempts == [] && baudrate == old(baudrate) && queue == old(queue)
        && (connection != null ==> unchanged(connection))
      ensures old(IsOpen()) ==>
        Pass(detected, attempts, Snap()) == Scan(connection.device, connection.supported, baudrates, old(baudrate), old(Snap()))
      // each candidate is tried at most once, and a detected speed is a
      // candidate other than the entry speed, now in effect on both sides
      ensures Distinct(Bauds(attempts))
      ensures detected.Some? ==>
        && detected.value in baudrates && detected.value != old(baudrate)
        && baudrate == detected.value && connection.baudrate == detected.value
    {
      if !IsOpen() {
        return None, [];
      }
      ghost var d, sup, skip, st := connection.device, connection.supported, baudrate, Snap();
      detected, attempts := ScanCandidates();
      ScanTriesInOrder(d, sup, baudrates, skip, st);
      TriedOnce(baudrates, skip, Bauds(attempts));
      ScanStopsAtFirstAck(d, sup, baudrates, skip, st);
      ScanDetectsCandidate(d, sup, baudrates, skip, st);
    }

    /** The loop of `check_baudrate` over an open port. */
    method ScanCandidates() returns (detected: Option<int>, ghost attempts: seq<Attempt>)
      requires Valid() && IsOpen()
      modifies this`baudrate, this`queue, connection
      ensures Valid() && connection.isOpen
      ensures Pass(detected, attempts, Snap()) == Scan(connection.device, connection.supported, baudrates, old(baudrate), old(Snap()))
    {
      var skip := baudrate;
      var cands := baudrates;
      ghost var d, sup, st := connection.device, connection.supported, Snap();
      attempts := [];
      for i := 0 to |cands|
        invariant Valid() && connection.isOpen
        invariant Scan(d, sup, cands, skip, st) == Prepend(attempts, Scan(d, sup, cands[i..], skip, Snap()))
      {
        var baud := cands[i];
        assert cands[i..][1..] == cands[i + 1..];
        if baud == skip {
          continue;
        }
        var probe := TryCandidate(baud);
        attempts := attempts + [Attempt(baud, probe)];
        if probe == Probed(true) {
          return Some(baud), attempts;
        }
      }
      detected := None;
    }

    /** `disconnect`: stop the reader and close an open port; otherwise do nothing. */
    method Disconnect()
      requires Valid()
      modifies this`running, connection
      ensures connection != null ==> connection.baudrate == old(connection.baudrate) && connection.written == old(connection.written)
      ensures Valid() && !IsOpen()
      ensures old(IsOpen()) ==> !running
      ensures !old(IsOpen()) ==> running == old(running) && (connection != null ==> unchanged(connection))
    {
      if IsOpen() {
        running := false;
        connection.Close();
      }
    }

    /** `send_setting`: on an open port, as `SendSettingOpen`; on a closed
        one, return false and change nothing. */
    method SendSetting(setting: string) returns (outcome: Outcome)
      requires Valid()
      modifies this`baudrate, this`queue, connection
      ensures connection != null ==> connection.isOpen == old(connection.isOpen)
      ensures Valid()
      ensures !old(IsOpen()) ==>
        outcome == Returned(false) && baudrate == old(baudrate) && queue == old(queue)
        && (connection != null ==> unchanged(connection))
      ensures old(IsOpen()) ==>
        (outcome, Snap()) == SendSettingOpen(connection.device, connection.supported, setting, old(Snap()))
    {
      if !IsOpen() {
        return Returned(false);
      }
      ghost var d, sup, st := connection.device, connection.supported, Snap();
      var frame := Frame(setting);
      if IsSwitchCommand(setting) {
        outcome := SwitchBaudrate(setting, frame);
        return;
      }
      Transmit(frame);
      var acked := WaitForAcknowledgment();
      outcome := Returned(acked);
    }

    /** The `COM COM` branch of `send_setting`. */
    method SwitchBaudrate(setting: string, frame: seq<Byte>) returns (outcome: Outcome)
      requires Valid() && IsOpen() && IsSwitchCommand(setting) && frame == Frame(setting)
      modifies this`baudrate, this`queue, connection
      ensures Valid() && connection.isOpen
      ensures (outcome, Snap()) == SwitchSpeed(connection.device, connection.supported, setting, old(Snap()))
    {
      var live := CheckConnection();
      if !live {
        return Returned(false);
      }
      var _ := QueueEmpty();
      var target := SwitchTarget(setting);
      if target.None? {
        return Raised(ValueError);
      }
      Transmit(frame);
      var oldBaudrate := baudrate;
      var raised := ChangeBaudrate(target.value);
      if raised.Some? {
        return Raised(raised.value);
      }
      var _ := QueueEmpty();
      var ok := CheckConnection();
      if !ok {
        var raisedBack := ChangeBaudrate(oldBaudrate);
        if raisedBack.Some? {
          return Raised(raisedBack.value);
        }
        return Returned(false);
      }
      return Returned(true);
    }

    /** `send_settings`: each setting in order, until one raises. */
    method SendSettings(settings: seq<string>) returns (raised: Option<Exception>)
      requires Valid()
      modifies this`baudrate, this`queue, connection
      ensures connection != null ==> connection.isOpen == old(connection.isOpen)
      ensures Valid()
      ensures !old(IsOpen()) ==>
        raised == None && baudrate == old(baudrate) && queue == old(queue)
        && (connection != null ==> unchanged(connection))
      ensures old(IsOpen()) ==>
        (raised, Snap()) == SendAll(connection.device, connection.supported, settings, old(Snap()))
    {
      if !IsOpen() {
        for i := 0 to |settings|
          invariant Valid() && !IsOpen()
          invariant baudrate == old(baudrate) && queue == old(queue)
          invariant connection != null ==> unchanged(connection)
        {
          var _ := SendSetting(settings[i]);
        }
        return None;
      }
      ghost var d, sup, st := connection.device, connection.supported, Snap();
      for i := 0 to |settings|
        invariant Valid() && IsOpen()
        invariant SendAll(d, sup, settings, st) == SendAll(d, sup, settings[i..], Snap())
      {
        assert settings[i..][1..] == settings[i + 1..];
        var outcome := SendSetting(settings[i]);
        if outcome.Raised? {
          return Some(outcome.error);
        }
      }
      raised := None;
    }

    /** `connect`: open the port at the configured speed, start the reader,
        probe for three seconds and fall back on detection; close the port
        again if nothing answers. `portAvailable` says whether the port can be
        opened; `device` and `supported` describe what is at the other end. */
    method Connect(portAvailable: bool, device: Device, supported: set<int>) returns (outcome: Outcome)
      requires Valid()
      modifies this`connection, this`running, this`baudrate, this`queue
      ensures Valid()
      // `serial.Serial` refuses a negative speed with `ValueError`, which is not caught
      ensures old(baudrate) < 0 ==> outcome == Raised(ValueError)
      // a port that cannot be opened at the configured speed makes connect return false
      ensures 0 <= old(baudrate) && !(portAvailable && old(baudrate) in supported) ==> outcome == Returned(false)
      ensures !(portAvailable && Settable(supported, old(baudrate))) ==>
        connection == old(connection) && running == old(running) && baudrate == old(baudrate) && queue == old(queue)
      ensures portAvailable && Settable(supported, old(baudrate)) ==>
        && fresh(connection) && connection.device == device && connection.supported == supported
        && outcome.Returned? && (IsOpen() <==> outcome.ok) && running == outcome.ok
        && (outcome.ok, Snap()) ==
             ConnectOpen(device, supported, baudrates, Snapshot(old(baudrate), old(baudrate), [], old(queue)))
    {
      if baudrate < 0 {
        return Raised(ValueError);
      }
      if !portAvailable || baudrate !in supported {
        return Returned(false);
      }
      connection := new Port.Open(baudrate, device, supported);
      running := true;
      var live := CheckConnection(3);
      if live {
        return Returned(true);
      }
      ghost var attempts;
      var detected;
      detected, attempts := CheckBaudrate();
      if detected == None {
        Disconnect();
        return Returned(false);
      }
      return Returned(true);
    }
  }
}
