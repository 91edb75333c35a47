/**
  Sending configuration commands to the receiver. A plain command is written
  with a CRLF terminator and acknowledged by the token within ten seconds. A
  command containing `COM COM` changes the receiver's serial speed: the
  manager checks the link, sends the command at the old speed, moves its own
  line to the speed named by the command's last word, checks the link again,
  and moves back if that check fails.
 */
module Settings {

  import opened Wrappers
  import opened Bytes
  import opened Text
  import opened Ack
  import opened Serial
  import opened Steps
  import opened Detect

  /** How a call ends: with its return value, or with an exception it does not catch. */
  datatype Outcome = Returned(ok: bool) | Raised(error: Exception)

  const Crlf: string := "\r\n"

  /** Polls in a default ten-second wait (`timeout = 10`, five polls a second). */
  const AckPolls: nat := 50

  /** The marker that makes a setting a speed-change command. */
  const SwitchMarker: string := "COM COM"

  predicate IsSwitchCommand(setting: string)
  {
    Contains(setting, SwitchMarker)
  }

  /** `int(setting.split()[-1])`: the speed a switch command asks for; `None` where `int` raises. */
  function SwitchTarget(setting: string): Option<int>
    requires IsSwitchCommand(setting)
  {
    HasFieldWhenContains(setting, SwitchMarker);
    ParseInt(LastField(setting))
  }

  /** A switch command ending in a spelled-out speed asks for exactly that speed. */
  lemma SwitchCommandTarget(head: string, speed: nat)
    requires IsSwitchCommand(head)
    ensures IsSwitchCommand(head + " " + Decimal(speed))
    ensures SwitchTarget(head + " " + Decimal(speed)) == Some(speed)
  {
    var s := head + " " + Decimal(speed);
    ContainsExtended([], head, " " + Decimal(speed), SwitchMarker);
    assert [] + head + (" " + Decimal(speed)) == s;
    assert s == head + [' '] + Decimal(speed);
    SplitAppendField(head, Decimal(speed));
    ParseDecimal(speed);
  }

  /** `(setting + '\r\n').encode()`. */
  function Frame(setting: string): seq<Byte>
  {
    Encode(setting + Crlf)
  }

  /** The queue after `data_queue.empty()` when `drain` is false (the call only
      asks whether the queue is empty), and after clearing it when `drain` is true. */
  function Emptied(st: Snapshot, drain: bool): Snapshot
  {
    if drain then st.(queue := []) else st
  }

  /** The speed-change branch of `send_setting` on an open port. With `drain`
      false this is the code as written; with `drain` true the two
      `data_queue.empty()` calls clear the queue. */
  function SwitchWith(d: Device, supported: set<int>, setting: string, st: Snapshot, drain: bool): (Outcome, Snapshot)
    requires IsSwitchCommand(setting)
  {
    var (live, checked) := CheckLine(d, st, AckPolls);
    if !live then (Returned(false), checked)
    else
      var cleared := Emptied(checked, drain);
      match SwitchTarget(setting)
      case None => (Raised(ValueError), cleared)
      case Some(target) =>
        var sent := WriteLine(d, cleared, Frame(setting));
        var (raised, moved) := ChangeSpeed(supported, sent, target);
        if raised.Some? then (Raised(raised.value), moved)
        else
          var (ok, probed) := CheckLine(d, Emptied(moved, drain), AckPolls);
          if ok then (Returned(true), probed)
          else
            var (raisedBack, back) := ChangeSpeed(supported, probed, sent.baudrate);
            (if raisedBack.Some? then Raised(raisedBack.value) else Returned(false), back)
  }

  /** The speed-change branch as written. */
  function SwitchSpeed(d: Device, supported: set<int>, setting: string, st: Snapshot): (Outcome, Snapshot)
    requires IsSwitchCommand(setting)
  {
    SwitchWith(d, supported, setting, st, false)
  }

  /** The speed-change branch with the queue cleared where `empty()` is called. */
  function SwitchSpeedDrained(d: Device, supported: set<int>, setting: string, st: Snapshot): (Outcome, Snapshot)
    requires IsSwitchCommand(setting)
  {
    SwitchWith(d, supported, setting, st, true)
  }

  /** A plain command: write it, then wait ten seconds for the token. */
  function SendPlain(d: Device, setting: string, st: Snapshot): (Outcome, Snapshot)
  {
    var sent := WriteLine(d, st, Frame(setting));
    var w := AwaitAck(sent.queue, AckPolls);
    (Returned(w.acked), sent.(queue := w.rest))
  }

  /** `send_setting` on an open port. */
  function SendSettingOpen(d: Device, supported: set<int>, setting: string, st: Snapshot): (Outcome, Snapshot)
  {
    if IsSwitchCommand(setting) then SwitchSpeed(d, supported, setting, st)
    else SendPlain(d, setting, st)
  }

  /** `send_settings` on an open port: each setting in order; an exception
      ends the loop and leaves the call. */
  function SendAll(d: Device, supported: set<int>, settings: seq<string>, st: Snapshot): (Option<Exception>, Snapshot)
  {
    if settings == [] then (None, st)
    else
      var (outcome, next) := SendSettingOpen(d, supported, settings[0], st);
      if outcome.Raised? then (Some(outcome.error), next)
      else SendAll(d, supported, settings[1..], next)
  }

  lemma ProbeLacksC()
    ensures 0x43 !in ProbeBytes
  {
  }

  /** A speed-change command never goes out as the probe: its frame holds
      the byte of `C`, which the probe does not. */
  lemma FrameIsNotProbe(setting: string)
    requires IsSwitchCommand(setting)
    ensures Frame(setting) != ProbeBytes
  {
    var i :| 0 <= i <= |setting| - |SwitchMarker| && OccursAt(setting, SwitchMarker, i);
    assert setting[i] == 'C' by {
      assert setting[i..i + |SwitchMarker|][0] == setting[i];
    }
    var u, v := setting[..i], setting[i + 1..] + Crlf;
    assert setting + Crlf == u + [setting[i]] + v;
    EncodeAsciiAt(u, 'C', v);
    var j := |Encode(u)|;
    assert Frame(setting)[j] == 0x43 && 0x43 in Frame(setting);
    ProbeLacksC();
  }

  // ---------------------------------------------------------------------------
  // Plain commands

  /** A plain command never raises and never moves a speed: it writes its
      frame once at the line speed, and returns whether the token came back
      within the wait. */
  lemma PlainSetting(d: Device, supported: set<int>, setting: string, st: Snapshot)
    requires !IsSwitchCommand(setting)
    ensures var (outcome, after) := SendSettingOpen(d, supported, setting, st);
      && outcome == Returned(AwaitAck(st.queue + Reply(d, after.written), AckPolls).acked)
      && after.written == st.written + [Transmission(st.lineBaud, Frame(setting))]
      && after.baudrate == st.baudrate && after.lineBaud == st.lineBaud
  {
  }

  /** Regrouping a concatenation; stated on its own because the solver finds
      it slowly inside a larger proof. */
  lemma AppendAssociative<T>(a: seq<T>, b: seq<T>, c: seq<T>)
    ensures (a + b) + c == a + (b + c)
  {
  }

  /** The transmissions of a run of plain commands at one line speed. */
  function Frames(line: int, settings: seq<string>): (r: seq<Transmission>)
    ensures |r| == |settings|
  {
    if settings == [] then [] else [Transmission(line, Frame(settings[0]))] + Frames(line, settings[1..])
  }

  /** A run of plain commands raises nothing, leaves both speeds alone, and
      writes each frame once, in order. */
  lemma {:induction false} SendAllPlain(d: Device, supported: set<int>, settings: seq<string>, st: Snapshot)
    requires forall k | 0 <= k < |settings| :: !IsSwitchCommand(settings[k])
    ensures var (raised, after) := SendAll(d, supported, settings, st);
      && raised == None
      && after.baudrate == st.baudrate && after.lineBaud == st.lineBaud
      && after.written == st.written + Frames(st.lineBaud, settings)
  {
    if settings != [] {
      PlainSetting(d, supported, settings[0], st);
      var next := SendSettingOpen(d, supported, settings[0], st).1;
      var rest := settings[1..];
      assert forall k | 0 <= k < |rest| :: rest[k] == settings[k + 1];
      SendAllPlain(d, supported, rest, next);
      var first := [Transmission(st.lineBaud, Frame(settings[0]))];
      AppendAssociative(st.written, first, Frames(st.lineBaud, rest));
    }
  }

  /** A plain command to a receiver listening at the line speed is
      acknowledged, and the wait consumes everything queued. */
  lemma PlainSettingToListener(d: Device, supported: set<int>, setting: string, st: Snapshot)
    requires !IsSwitchCommand(setting)
    requires AcksExactlyAt(d, st.lineBaud) && NoAck(st.queue) && |st.queue| < AckPolls
    ensures var (outcome, after) := SendSettingOpen(d, supported, setting, st);
      outcome == Returned(true) && after.queue == []
  {
    var written := st.written + [Transmission(st.lineBaud, Frame(setting))];
    assert Reply(d, written) == [AckReply];
    AckReplyHasAck();
    ReplySeenBehindStale(st.queue, AckReply, AckPolls);
  }

  /** A plain command to a receiver quiet at the line speed fails, provided
      no token is queued. */
  lemma PlainSettingToSilence(d: Device, supported: set<int>, setting: string, st: Snapshot)
    requires !IsSwitchCommand(setting) && QuietAt(d, [st.lineBaud]) && NoAck(st.queue)
    ensures SendSettingOpen(d, supported, setting, st).0 == Returned(false)
  {
    var written := st.written + [Transmission(st.lineBaud, Frame(setting))];
    assert written[|written| - 1].baud in [st.lineBaud];
    NoAckAppend(st.queue, Reply(d, written));
    NoAckWaitFails(st.queue + Reply(d, written), AckPolls);
  }

  // ---------------------------------------------------------------------------
  // Speed changes

  /** A speed change that reports success leaves both the configured speed
      and the line at the speed the command named. */
  lemma SwitchSucceeds(d: Device, supported: set<int>, setting: string, st: Snapshot, drain: bool)
    requires IsSwitchCommand(setting)
    ensures var (outcome, after) := SwitchWith(d, supported, setting, st, drain);
      outcome == Returned(true) ==>
        SwitchTarget(setting) == Some(after.baudrate) && after.lineBaud == after.baudrate
  {
  }

  /** A speed change that fails or raises leaves the line where it was, and a
      change that fails without raising leaves the configured speed there
      too, provided the two agreed at entry on a speed the port accepts. A command
      whose last word is not a number raises `ValueError` before it is sent. */
  lemma SwitchFailureKeepsSpeed(d: Device, supported: set<int>, setting: string, st: Snapshot, drain: bool)
    requires IsSwitchCommand(setting)
    requires st.baudrate == st.lineBaud && Settable(supported, st.lineBaud)
    ensures var (outcome, after) := SwitchWith(d, supported, setting, st, drain);
      && (outcome != Returned(true) ==> after.lineBaud == st.lineBaud)
      && (outcome == Returned(false) ==> after.baudrate == st.baudrate)
      && (outcome == Raised(ValueError) <==>
            CheckLine(d, st, AckPolls).0 && (SwitchTarget(setting).None? || SwitchTarget(setting).value < 0))
      && (SwitchTarget(setting).None? ==> after.written == CheckLine(d, st, AckPolls).1.written)
  {
  }

  /** Whatever the two speeds are at entry, a speed change that fails
      without raising leaves the configured speed as it was, and one whose
      first probe goes unanswered returns false having written only that
      probe and moved neither speed. */
  lemma SwitchFailureKeepsConfiguredSpeed(d: Device, supported: set<int>, setting: string, st: Snapshot, drain: bool)
    requires IsSwitchCommand(setting)
    ensures var (outcome, after) := SwitchWith(d, supported, setting, st, drain);
      && (outcome == Returned(false) ==> after.baudrate == st.baudrate)
      && (!CheckLine(d, st, AckPolls).0 ==>
            && outcome == Returned(false)
            && after == CheckLine(d, st, AckPolls).1
            && after.baudrate == st.baudrate && after.lineBaud == st.lineBaud
            && after.written == st.written + [Transmission(st.lineBaud, ProbeBytes)])
  {
    CheckLineWritesProbe(d, st, AckPolls);
  }

  /** Whatever a setting does, the line stays at a speed the port accepts. */
  lemma SendSettingKeepsLineSettable(d: Device, supported: set<int>, setting: string, st: Snapshot)
    requires Settable(supported, st.lineBaud)
    ensures Settable(supported, SendSettingOpen(d, supported, setting, st).1.lineBaud)
  {
  }

  /** A run of settings keeps the line at a speed the port accepts. */
  lemma {:induction false} SendAllKeepsLineSettable(d: Device, supported: set<int>, settings: seq<string>, st: Snapshot)
    requires Settable(supported, st.lineBaud)
    ensures Settable(supported, SendAll(d, supported, settings, st).1.lineBaud)
  {
    if settings != [] {
      var (outcome, next) := SendSettingOpen(d, supported, settings[0], st);
      SendSettingKeepsLineSettable(d, supported, settings[0], st);
      if outcome.Returned? {
        SendAllKeepsLineSettable(d, supported, settings[1..], next);
      }
    }
  }

  /** A speed change to a speed the driver supports, with both checks
      acknowledged, reports success. */
  lemma SwitchConfirmed(d: Device, supported: set<int>, setting: string, st: Snapshot, target: int, drain: bool)
    requires IsSwitchCommand(setting) && SwitchTarget(setting) == Some(target) && Settable(supported, target)
    requires CheckLine(d, st, AckPolls).0
    requires CheckLine(d, Emptied(ChangeSpeed(supported, WriteLine(d, Emptied(CheckLine(d, st, AckPolls).1, drain), Frame(setting)), target).1, drain), AckPolls).0
    ensures SwitchWith(d, supported, setting, st, drain).0 == Returned(true)
    ensures SwitchWith(d, supported, setting, st, drain).1 ==
      CheckLine(d, Emptied(ChangeSpeed(supported, WriteLine(d, Emptied(CheckLine(d, st, AckPolls).1, drain), Frame(setting)), target).1, drain), AckPolls).1
  {
  }

  /** A receiver listening at the line speed acknowledges the probe and then
      the switch command: its answer to the command is all that is queued. */
  lemma ListenerTakesCommand(d: Device, st: Snapshot, setting: string)
    requires AcksExactlyAt(d, st.lineBaud) && NoAck(st.queue) && |st.queue| < AckPolls
    ensures CheckLine(d, st, AckPolls).0
    ensures WriteLine(d, CheckLine(d, st, AckPolls).1, Frame(setting)).queue == [AckReply]
  {
    ProbeAgainstListener(d, st.lineBaud, st, AckPolls);
  }

  /** A probe away from the only speed the receiver listens at draws no
      answer, yet an acknowledgment already queued satisfies it. */
  lemma StaleAckAnswersProbe(d: Device, s: int, st: Snapshot)
    requires AcksExactlyAt(d, s) && st.lineBaud != s && st.queue == [AckReply]
    ensures CheckLine(d, st, AckPolls).0
    ensures Reply(d, CheckLine(d, st, AckPolls).1.written) == []
  {
    var written := st.written + [Transmission(st.lineBaud, ProbeBytes)];
    assert Reply(d, written) == [];
    AckReplyHasAck();
    assert st.queue + Reply(d, written) == [AckReply];
  }

  /** A speed change whose post-switch probe goes unanswered rolls back to
      the configured speed it started from. */
  lemma SwitchRefuted(d: Device, supported: set<int>, setting: string, st: Snapshot, target: int, drain: bool)
    requires IsSwitchCommand(setting) && SwitchTarget(setting) == Some(target) && Settable(supported, target)
    requires Settable(supported, st.baudrate)
    requires CheckLine(d, st, AckPolls).0
    requires !CheckLine(d, Emptied(ChangeSpeed(supported, WriteLine(d, Emptied(CheckLine(d, st, AckPolls).1, drain), Frame(setting)), target).1, drain), AckPolls).0
    ensures SwitchWith(d, supported, setting, st, drain).0 == Returned(false)
    ensures SwitchWith(d, supported, setting, st, drain).1.baudrate == st.baudrate
    ensures SwitchWith(d, supported, setting, st, drain).1.lineBaud == st.baudrate
  {
  }

  /** A receiver that listens at `a` until it receives `command` there, and
      from then on at `b` only, or at no speed when `b` is `None`. */
  ghost predicate SwitchesOn(d: Device, command: seq<Byte>, a: int, b: Option<int>)
  {
    forall h: seq<Transmission> :: h != [] ==>
      Reply(d, h) == (if Transmission(a, command) in h then (if b == Some(h[|h| - 1].baud) then [AckReply] else [])
                      else if h[|h| - 1].baud == a then [AckReply] else [])
  }

  /** Such a receiver, not yet switched, answers the probe at `a`. */
  lemma UnswitchedAnswersProbe(d: Device, command: seq<Byte>, b: Option<int>, st: Snapshot)
    requires SwitchesOn(d, command, st.lineBaud, b) && command != ProbeBytes
    requires Transmission(st.lineBaud, command) !in st.written
    requires NoAck(st.queue) && |st.queue| < AckPolls
    ensures CheckLine(d, st, AckPolls).0 && CheckLine(d, st, AckPolls).1.queue == []
    ensures Transmission(st.lineBaud, command) !in CheckLine(d, st, AckPolls).1.written
  {
    var x := Transmission(st.lineBaud, ProbeBytes);
    var written := st.written + [x];
    assert x != Transmission(st.lineBaud, command);
    assert Transmission(st.lineBaud, command) !in written;
    assert Reply(d, written) == [AckReply];
    AckReplyHasAck();
    ReplySeenBehindStale(st.queue, AckReply, AckPolls);
  }

  /** It takes the switch command, sent at `a`, without a word. */
  lemma CommandTakenSilently(d: Device, command: seq<Byte>, b: Option<int>, st: Snapshot)
    requires SwitchesOn(d, command, st.lineBaud, b) && b != Some(st.lineBaud) && st.queue == []
    ensures WriteLine(d, st, command).queue == []
    ensures Transmission(st.lineBaud, command) in WriteLine(d, st, command).written
  {
    var written := st.written + [Transmission(st.lineBaud, command)];
    assert written[|written| - 1] == Transmission(st.lineBaud, command);
    assert Reply(d, written) == [];
  }

  /** Both together: the pre-switch probe succeeds and the command leaves
      nothing queued. */
  lemma SwitchCommandTaken(d: Device, setting: string, st: Snapshot, b: Option<int>)
    requires IsSwitchCommand(setting) && SwitchesOn(d, Frame(setting), st.lineBaud, b) && b != Some(st.lineBaud)
    requires Transmission(st.lineBaud, Frame(setting)) !in st.written
    requires NoAck(st.queue) && |st.queue| < AckPolls
    ensures CheckLine(d, st, AckPolls).0
    ensures WriteLine(d, CheckLine(d, st, AckPolls).1, Frame(setting)).queue == []
    ensures Transmission(st.lineBaud, Frame(setting)) in WriteLine(d, CheckLine(d, st, AckPolls).1, Frame(setting)).written
  {
    FrameIsNotProbe(setting);
    UnswitchedAnswersProbe(d, Frame(setting), b, st);
    CommandTakenSilently(d, Frame(setting), b, CheckLine(d, st, AckPolls).1);
  }

  /** Once switched, such a receiver answers a probe exactly at `b`. */
  lemma ProbeAfterSwitch(d: Device, command: seq<Byte>, a: int, b: Option<int>, st: Snapshot)
    requires SwitchesOn(d, command, a, b) && Transmission(a, command) in st.written && st.queue == []
    ensures CheckLine(d, st, AckPolls).0 <==> b == Some(st.lineBaud)
  {
    var written := st.written + [Transmission(st.lineBaud, ProbeBytes)];
    assert Transmission(a, command) in written;
    if b == Some(st.lineBaud) {
      AckReplyHasAck();
      assert [] + Reply(d, written) == [AckReply];
    } else {
      assert [] + Reply(d, written) == [];
    }
  }

  /** A receiver that moves to the commanded speed is followed there: the
      change succeeds and both speeds end at the new one. */
  lemma SwitchFollowsReceiver(d: Device, supported: set<int>, setting: string, st: Snapshot, target: int)
    requires IsSwitchCommand(setting) && SwitchTarget(setting) == Some(target)
    requires target != st.lineBaud && Settable(supported, target)
    requires SwitchesOn(d, Frame(setting), st.lineBaud, Some(target))
    requires Transmission(st.lineBaud, Frame(setting)) !in st.written
    requires NoAck(st.queue) && |st.queue| < AckPolls
    ensures var (outcome, after) := SwitchSpeed(d, supported, setting, st);
      outcome == Returned(true) && after.baudrate == target && after.lineBaud == target
  {
    SwitchCommandTaken(d, setting, st, Some(target));
    var sent := WriteLine(d, CheckLine(d, st, AckPolls).1, Frame(setting));
    var moved := ChangeSpeed(supported, sent, target).1;
    ProbeAfterSwitch(d, Frame(setting), st.lineBaud, Some(target), moved);
    SwitchConfirmed(d, supported, setting, st, target, false);
  }

  /** A receiver that falls silent after the command is given up on: the
      change fails and both speeds return to where they were. */
  lemma SwitchRollsBackFromSilence(d: Device, supported: set<int>, setting: string, st: Snapshot, target: int)
    requires IsSwitchCommand(setting) && SwitchTarget(setting) == Some(target) && Settable(supported, target)
    requires st.baudrate == st.lineBaud && Settable(supported, st.lineBaud)
    requires SwitchesOn(d, Frame(setting), st.lineBaud, None)
    requires Transmission(st.lineBaud, Frame(setting)) !in st.written
    requires NoAck(st.queue) && |st.queue| < AckPolls
    ensures var (outcome, after) := SwitchSpeed(d, supported, setting, st);
      outcome == Returned(false) && after.baudrate == st.baudrate && after.lineBaud == st.lineBaud
  {
    SwitchCommandTaken(d, setting, st, None);
    var sent := WriteLine(d, CheckLine(d, st, AckPolls).1, Frame(setting));
    var moved := ChangeSpeed(supported, sent, target).1;
    ProbeAfterSwitch(d, Frame(setting), st.lineBaud, None, moved);
    SwitchRefuted(d, supported, setting, st, target, false);
  }

  /** As written, the receiver's acknowledgment of the switch command itself
      stays queued (`empty()` does not clear the queue) and confirms the check
      at the new speed: a receiver that acknowledges the command but goes on
      listening only at the old speed, and so says nothing at the new one, is
      reported as switched. */
  lemma StaleAckConfirmsSwitch(d: Device, supported: set<int>, setting: string, st: Snapshot, target: int)
    requires AcksExactlyAt(d, st.lineBaud) && NoAck(st.queue) && |st.queue| < AckPolls
    requires IsSwitchCommand(setting) && SwitchTarget(setting) == Some(target)
    requires target != st.lineBaud && Settable(supported, target)
    ensures var (outcome, after) := SwitchSpeed(d, supported, setting, st);
      && outcome == Returned(true) && after.lineBaud == target
      && Reply(d, after.written) == []
  {
    ListenerTakesCommand(d, st, setting);
    var sent := WriteLine(d, CheckLine(d, st, AckPolls).1, Frame(setting));
    var moved := ChangeSpeed(supported, sent, target).1;
    StaleAckAnswersProbe(d, st.lineBaud, moved);
    SwitchConfirmed(d, supported, setting, st, target, false);
  }

  /** With the queue cleared, a speed change is confirmed only by the
      receiver's own answer to the probe at the new speed. */
  lemma DrainedSwitchNeedsAnswer(d: Device, supported: set<int>, setting: string, st: Snapshot)
    requires IsSwitchCommand(setting)
    ensures var (outcome, after) := SwitchSpeedDrained(d, supported, setting, st);
      outcome == Returned(true) ==>
        && after.written[|after.written| - 1] == Transmission(after.lineBaud, ProbeBytes)
        && !NoAck(Reply(d, after.written))
  {
    var (outcome, after) := SwitchSpeedDrained(d, supported, setting, st);
    if outcome == Returned(true) {
      var checked := CheckLine(d, st, AckPolls).1;
      var target := SwitchTarget(setting).value;
      var sent := WriteLine(d, checked.(queue := []), Frame(setting));
      var moved := ChangeSpeed(supported, sent, target).1.(queue := []);
      assert CheckLine(d, moved, AckPolls) == (true, after);
      ProbeNeedsAnswer(d, moved, AckPolls);
    }
  }

  /** With the queue cleared, the receiver that fooled the code as written
      (acknowledging at the old speed only) makes the change fail and roll
      back to the old speed. */
  lemma DrainedSwitchRollsBack(d: Device, supported: set<int>, setting: string, st: Snapshot, target: int)
    requires AcksExactlyAt(d, st.lineBaud) && NoAck(st.queue) && |st.queue| < AckPolls
    requires st.baudrate == st.lineBaud && Settable(supported, st.lineBaud)
    requires IsSwitchCommand(setting) && SwitchTarget(setting) == Some(target)
    requires target != st.lineBaud && Settable(supported, target)
    ensures var (outcome, after) := SwitchSpeedDrained(d, supported, setting, st);
      outcome == Returned(false) && after.baudrate == st.baudrate && after.lineBaud == st.lineBaud
  {
    var s := st.lineBaud;
    ProbeAgainstListener(d, s, st, AckPolls);
    var (live, checked) := CheckLine(d, st, AckPolls);
    assert live;
    var sent := WriteLine(d, checked.(queue := []), Frame(setting));
    var (raised, moved) := ChangeSpeed(supported, sent, target);
    assert raised == None && moved.lineBaud == target;
    ProbeAgainstListener(d, s, moved.(queue := []), AckPolls);
    var (ok, probed) := CheckLine(d, moved.(queue := []), AckPolls);
    assert !ok;
    var (raisedBack, back) := ChangeSpeed(supported, probed, sent.baudrate);
    assert sent.baudrate == s && raisedBack == None;
    assert SwitchWith(d, supported, setting, st, true) == (Returned(false), back);
  }
}
