# GNSS receiver connection manager, in Dafny

This project models `GNSSManager`, the class that owns the serial link to a
GNSS receiver. It opens the port at a configured speed and starts a
background reader that queues every chunk received. It confirms that the
receiver answers by writing the query `log versionb` and waiting for a chunk
holding `OK!`. When the configured speed gets no answer, it walks a fixed
list of candidate speeds. It sends configuration commands and waits for their
acknowledgment. A command containing `COM COM` moves the receiver to another
speed: the manager follows it there and moves back if the receiver does not
answer at the new speed.

Module layout:

- `Bytes`: bytes, sub-sequence search, and UTF-8 encoding of strings (`str.encode()`).
- `Text`: `str.split()`, the last field, and Python's `int()` on a field.
- `Ack`: the token test (`b'OK!' in data`) and the bounded wait, as a function.
- `Serial`: the port (`Port`: open flag, line speed, write log) and the receiver, as an oracle.
- `Steps`: the three steps on an open port (change the speed, write, probe), as functions over a `Snapshot` of the state.
- `Detect`: the detection walk `Scan` and what it promises, including against two kinds of receiver.
- `Settings`: `send_setting` and `send_settings` as functions, with the lemmas about plain commands and speed changes.
- `Manager`: the class `GNSSManager` itself, imperative.

Each method of `Manager.GNSSManager` that works on an open port ensures an
equation `(result, Snap()) == F(…, old(Snap()))`, where `F` is the function
of `Steps`, `Detect` or `Settings` for that operation. What the source
promises is proved as lemmas about those functions.

The receiver is a function from the history of writes (each with the line
speed it went out at) to the chunks it sends back for the latest one. The
background reader is folded into each write: the reply reaches the queue
behind what is already there.

Where the code differs from the behaviour its design describes, the model
follows the code:

- `data_queue.empty()` (lines 65, 77, 157) only asks whether the queue is empty; it does not drain it. See "## Findings".
- `send_settings` does not always try every command. `int()` on a malformed speed raises `ValueError`. The model also assumes that setting an unsupported speed on an open port raises `SerialException`, which is the exception the handler at line 164 expects; the serial library itself is not part of this model. Neither exception is caught in `send_setting`, so the loop stops there (`Settings.SendAll`).
- Faults do surface in some paths. `connect` lets the `ValueError` for a negative speed through. `send_setting` lets `ValueError` and `SerialException` through, including from the rollback `change_baudrate(old_baudrate)`.
- The rollback target is `self.baudrate` as it was before the change. That is the configured speed, which need not be the speed the line ran at.

## Model

| member | source | states |
|---|---|---|
| Bytes.EncodeChar | GNSSManager.py:69 | a character encodes to one to four bytes; exactly the ASCII characters encode to one byte, equal to their code |
| Bytes.EncodeAppend | GNSSManager.py:56-69 | encoding distributes over concatenation, so a setting's frame is its own bytes followed by CR LF |
| Bytes.Encode | GNSSManager.py:69 | `str.encode()`: the UTF-8 bytes of each character, in order |
| Text.ParseInt | GNSSManager.py:66 | `int()` on a field: an optional sign and decimal digits, underscores allowed singly between digits; anything else is `None`, standing for `ValueError` |
| Settings.SwitchTarget | GNSSManager.py:66 | `int(setting.split()[-1])`: the speed a switch command names, or `None` where `int` raises |
| Settings.Frame | GNSSManager.py:56 | `(setting + '\r\n').encode()`: the bytes a command goes out as |
| Text.Split | GNSSManager.py:66 | every field `split()` returns is non-empty and holds no whitespace |
| Text.SplitLosesOnlySpaces | GNSSManager.py:66 | joining the fields gives back the text with whitespace removed: no other character is lost or reordered |
| Text.SplitEmptyIffAllSpace | GNSSManager.py:66 | `split()` returns no field exactly when the text is all whitespace |
| Text.HasFieldWhenContains | GNSSManager.py:58-66 | a setting containing `COM COM` always has a last field, so `[-1]` never raises |
| Text.ParseDecimal | GNSSManager.py:66 | `int()` reads back a speed written in decimal, with or without a minus sign |
| Settings.SwitchCommandTarget | GNSSManager.py:58-66 | a `COM COM` command followed by a speed asks for exactly that speed |
| Ack.AwaitAck | GNSSManager.py:111-123 | the wait: each of `polls` polls pops the oldest chunk if any, stops with success on a chunk holding `OK!`, and the wait fails when the polls run out; returns the outcome and what is left queued |
| Ack.AwaitAckIff | GNSSManager.py:111-123 | the wait succeeds exactly when one of the first `polls` queued chunks holds the token |
| Ack.AwaitAckStopsAtFirst | GNSSManager.py:113-119 | the wait stops at the first chunk holding the token and leaves everything after it queued |
| Ack.AwaitAckMissesAll | GNSSManager.py:113-123 | with no token among the first `polls` chunks, the wait fails and pops exactly those chunks |
| Ack.AwaitAckPopsPrefix | GNSSManager.py:113-120 | a wait only pops from the front, at most one chunk per poll |
| Ack.NoAckWaitFails | GNSSManager.py:111-123 | a queue without the token makes the wait fail and leaves no token queued |
| Ack.ReplySeenBehindStale | GNSSManager.py:111-123 | a reply holding the token, behind fewer stale chunks than polls and none holding it, is seen, and the wait empties the queue |
| Serial.Port.Open | GNSSManager.py:22 | a port opens at the requested speed with nothing written |
| Serial.Port.SetBaudrate | GNSSManager.py:108 | a negative speed raises `ValueError`; on an open port an unsupported speed raises `SerialException`, as the handler at line 164 assumes; otherwise the line moves |
| Serial.Port.Write | GNSSManager.py:101 | a write is appended to the log at the current line speed, and the receiver's reply to it is returned |
| Serial.Port.Close | GNSSManager.py:49 | the port is closed |
| Steps.ChangeSpeed | GNSSManager.py:106-108 | `change_baudrate` on an open port: the configured speed becomes the new one unconditionally, the line follows unless the assignment raises, and the exception is returned |
| Steps.WriteLine | GNSSManager.py:101 | a write at the current line speed, logged, with the receiver's reply queued behind what was there |
| Steps.CheckLine | GNSSManager.py:125-128 | `check_connection` on an open port: write the probe, then wait the given number of polls (five a second) for the token |
| Steps.ProbeOnTheWire | GNSSManager.py:127 | the probe query encodes to the sixteen bytes written |
| Steps.ChangeSpeedKeepsLineSettable | GNSSManager.py:106-108 | a speed change keeps the line at a speed the port accepts, and succeeds exactly on a non-negative supported speed |
| Steps.CheckLineWritesProbe | GNSSManager.py:125-128 | a probe writes exactly the query at the line speed and moves neither speed |
| Steps.ProbeNeedsAnswer | GNSSManager.py:125-128 | on an empty queue, a probe succeeds only if the receiver's reply to it holds the token |
| Detect.TryAt | GNSSManager.py:155-166 | one candidate: set the speed; a `SerialException` makes it refused with the line unchanged, otherwise a one-second probe runs at the new speed |
| Detect.Scan | GNSSManager.py:149-168 | the detection loop: skip the entry speed, try each candidate in order, stop at the first acknowledged one; returns the detected speed, the attempts and the state |
| Detect.SkippingMembers | GNSSManager.py:150-154 | the candidates tried are exactly the listed speeds other than the entry speed |
| Detect.BaudRatesDistinct | GNSSManager.py:17 | the candidate speeds are positive and listed once each |
| Detect.TriedOnce | GNSSManager.py:152-154 | over distinct candidates, no speed is tried twice |
| Detect.TriedIsCandidate | GNSSManager.py:152-154 | every speed tried is a candidate other than the entry speed |
| Detect.ScanTriesInOrder | GNSSManager.py:152-168 | the speeds tried are a prefix of the candidates in list order, entry speed skipped, and all of them when nothing is detected |
| Detect.ScanStopsAtFirstAck | GNSSManager.py:161-163 | detection succeeds exactly when the last attempt was acknowledged and no earlier one was, and leaves both speeds at the detected one |
| Detect.ScanDetectsCandidate | GNSSManager.py:152-163 | a detected speed is a candidate and not the entry speed |
| Detect.ScanKeepsLineSettable | GNSSManager.py:155-166 | a refused candidate leaves the line where it was, so the line stays at a speed the port accepts |
| Detect.ProbeAgainstListener | GNSSManager.py:125-128 | against a receiver listening at one speed only, a probe succeeds exactly at that speed and empties a short, token-free queue |
| Detect.ProbeSilentReceiver | GNSSManager.py:125-128 | a probe at a speed where the receiver never sends the token fails, and leaves no token queued when none was |
| Detect.ScanMissesSilentReceiver | GNSSManager.py:149-168 | a receiver that sends no token at any candidate the pass tries is not detected, whatever it does at the entry speed or off the list, if no token is queued at the start |
| Detect.ScanDrained | GNSSManager.py:155-163 | the detection loop with the queue cleared at the `empty()` call before each candidate, as the design intends |
| Detect.DrainedScanMissesSilentReceiver | GNSSManager.py:149-168 | with the queue cleared before each probe, a receiver quiet at every candidate tried is not detected, whatever was queued at the start |
| Detect.StaleAckDetectsFirstTry | GNSSManager.py:155-163 | as written: a token already queued when detection starts makes the first candidate tried count as detected, even where the receiver is quiet |
| Detect.ScanFindsListener | GNSSManager.py:149-168 | a receiver listening only at a supported candidate other than the entry speed is detected at exactly that speed, if fewer than five stale, token-free chunks are queued |
| Settings.SwitchWith | GNSSManager.py:58-85 | the `COM COM` branch: probe, parse the speed, send the command at the old speed, move, probe again, and on failure move back to the configured speed; `drain` says whether the two `empty()` calls clear the queue |
| Settings.SwitchSpeed | GNSSManager.py:58-85 | the `COM COM` branch as written: `SwitchWith` with the queue left as it is at both `empty()` calls |
| Settings.SwitchSpeedDrained | GNSSManager.py:65-77 | the corrected branch: `SwitchWith` with the queue cleared at both `empty()` calls |
| Settings.SendPlain | GNSSManager.py:87-90 | a plain command: write its frame, then wait ten seconds for the token |
| Settings.SendSettingOpen | GNSSManager.py:54-90 | `send_setting` on an open port: the `COM COM` branch for a switch command, a plain command otherwise |
| Settings.SendAll | GNSSManager.py:95-97 | `send_settings` on an open port: each setting in order, whatever it returns, until one raises, which ends the call with that exception |
| Settings.FrameIsNotProbe | GNSSManager.py:56-69 | a `COM COM` command's frame differs from the probe query |
| Settings.PlainSetting | GNSSManager.py:87-90 | a plain command never raises or moves a speed; it writes its frame once and returns the outcome of the ten-second wait |
| Settings.PlainSettingToListener | GNSSManager.py:87-90 | a plain command to a receiver listening at the line speed is acknowledged, and the queue ends empty |
| Settings.PlainSettingToSilence | GNSSManager.py:87-90 | a plain command to a receiver that sends no token at the line speed fails, if no token is queued |
| Settings.SendAllPlain | GNSSManager.py:95-97 | a run of plain commands raises nothing, moves no speed, and writes each frame once, in order |
| Settings.SwitchSucceeds | GNSSManager.py:58-85 | a speed change reporting success leaves both speeds at the speed the command named |
| Settings.SwitchFailureKeepsSpeed | GNSSManager.py:58-85 | when the configured speed and the line agree at entry on a speed the port accepts: a failed or raising change leaves the line where it was; `ValueError` is raised exactly when the link answered and the command's speed is unreadable or negative; an unreadable speed stops the call before the command is written; a failed change also leaves the configured speed. If the two speeds disagree at entry, a refuted change whose rollback does not raise ends with the line at the configured speed, not where it was |
| Settings.SwitchFailureKeepsConfiguredSpeed | GNSSManager.py:58-85 | from any entry state, a change that returns false leaves the configured speed as it was; when the first probe (lines 62-63) goes unanswered, the call returns false having written only that probe and moved neither speed |
| Settings.SwitchConfirmed | GNSSManager.py:75-85 | with both probes answered and the new speed supported, the change reports success |
| Settings.SwitchRefuted | GNSSManager.py:81-83 | with the post-switch probe unanswered, the change reports failure with both speeds back at the configured speed |
| Settings.SendSettingKeepsLineSettable | GNSSManager.py:54-90 | any setting leaves the line at a speed the port accepts |
| Settings.SendAllKeepsLineSettable | GNSSManager.py:95-97 | a run of settings leaves the line at a speed the port accepts |
| Settings.SwitchCommandTaken | GNSSManager.py:62-69 | a receiver that switches on the command answers the first probe and takes the command without reply |
| Settings.ProbeAfterSwitch | GNSSManager.py:79-81 | once the receiver has switched, the probe succeeds exactly at its new speed |
| Settings.SwitchFollowsReceiver | GNSSManager.py:58-85 | a receiver that moves to the commanded speed is followed: success, with both speeds at the new one |
| Settings.SwitchRollsBackFromSilence | GNSSManager.py:58-85 | a receiver that falls silent after the command: failure, with both speeds back where they were |
| Settings.ListenerTakesCommand | GNSSManager.py:62-69 | a receiver staying at the line speed answers the probe, and its acknowledgment of the command is all that is queued |
| Settings.StaleAckAnswersProbe | GNSSManager.py:77-81 | a probe at a speed the receiver does not listen at gets no reply, yet a queued acknowledgment satisfies it |
| Settings.StaleAckConfirmsSwitch | GNSSManager.py:65-85 | as written: a receiver that never leaves the old speed still makes the change report success, with the line at the new speed and no reply to the probe |
| Settings.DrainedSwitchNeedsAnswer | GNSSManager.py:65-85 | with the queue drained at both `empty()` calls, success implies the receiver answered the probe at the new speed |
| Settings.DrainedSwitchRollsBack | GNSSManager.py:65-85 | with the queue drained, a receiver that stays at the old speed makes the change fail and both speeds return to it |
| Manager.ConnectOpen | GNSSManager.py:27-41 | `connect` once the port is open: a three-second probe at the configured speed, and detection when it goes unanswered; succeeds when either finds the receiver |
| Manager.ConnectAgrees | GNSSManager.py:27-41 | a successful connect leaves the configured speed and the line in agreement |
| Manager.ConnectMissesSilentReceiver | GNSSManager.py:27-34 | a receiver that sends no token at the configured speed or at any candidate makes connect fail, if no token is queued when the port opens |
| Manager.ConnectFindsListener | GNSSManager.py:27-41 | a receiver listening only at the configured speed, or at a supported candidate, is connected to at that speed |
| Manager.GNSSManager.constructor | GNSSManager.py:9-17 | a new manager has no port, an empty queue, the reader stopped, and the candidate list |
| Manager.GNSSManager.QueueEmpty | GNSSManager.py:65 | `empty()` reports whether the queue is empty and changes nothing |
| Manager.GNSSManager.GetData | GNSSManager.py:141-147 | pops the oldest chunk, or returns `None` and leaves an empty queue alone |
| Manager.GNSSManager.Transmit | GNSSManager.py:127-139 | a write on the open port, as at lines 69, 87, 101 and 127, with the reply that the reader of lines 133-139 collects queued behind what was there |
| Manager.GNSSManager.Send | GNSSManager.py:99-104 | a raw write on an open port; on a closed one nothing changes |
| Manager.GNSSManager.ChangeBaudrate | GNSSManager.py:106-108 | the configured speed changes even when setting the port raises, and the line moves only when it does not, so an open port's line stays at a speed it accepts |
| Manager.GNSSManager.WaitForAcknowledgment | GNSSManager.py:111-123 | the loop pops and tests chunks exactly as the function `AwaitAck` does over `timeout * 5` polls |
| Manager.GNSSManager.CheckConnection | GNSSManager.py:125-131 | on an open port, writes the probe and waits; on a closed one fails and changes nothing |
| Manager.GNSSManager.TryCandidate | GNSSManager.py:155-166 | one candidate: move the line and probe for one second, or report a refused speed |
| Manager.GNSSManager.ScanCandidates | GNSSManager.py:152-168 | the loop over the candidates does exactly what `Scan` does |
| Manager.GNSSManager.CheckBaudrate | GNSSManager.py:149-171 | tries each candidate at most once; a detected speed is a candidate other than the entry speed and is in effect on both sides; on a closed port nothing is detected or changed |
| Manager.GNSSManager.Disconnect | GNSSManager.py:46-52 | an open port is closed and the reader stopped; otherwise nothing changes |
| Manager.GNSSManager.SendSetting | GNSSManager.py:54-93 | on an open port, as `SendSettingOpen`, with the line kept at an accepted speed; on a closed one returns false and changes nothing |
| Manager.GNSSManager.SwitchBaudrate | GNSSManager.py:58-85 | the `COM COM` branch does exactly what `SwitchSpeed` does |
| Manager.GNSSManager.SendSettings | GNSSManager.py:95-97 | the settings in order until one raises, as `SendAll`; on a closed port nothing changes |
| Manager.GNSSManager.Connect | GNSSManager.py:19-44 | a negative speed raises `ValueError`; a port that cannot be opened returns false and changes nothing; otherwise a fresh port is opened and connect runs as `ConnectOpen`, with the port left open exactly on success |

## Left out

- The background reader (lines 133-139) is not a separate thread. The receiver's reply to a write is queued at that write, in whole chunks, before the next poll. Interleavings where a reply arrives part-way through a wait, or split into chunks differently, are not modelled.
- `time.sleep`, the poll period and wall-clock time are not modelled. A wait of `timeout` seconds is `timeout * 5` polls.
- Console output (`print`, `TAG`, the `mute` flag) is left out. It has no effect on state or results.
- `self.timeout` (the port's read timeout) only shapes the reader's reads, which are not modelled.
- `self.port` is kept as a name only. Whether `serial.Serial` can open it is the `portAvailable` parameter of `Connect`. The receiver and the speeds its driver supports are the `device` and `supported` parameters.
- Serial faults other than an unsupported or negative speed are not modelled: write errors, a port closed from outside, OS errors.
- Serial.Port.SetBaudrate: the serial library is not part of this model. That an unsupported speed on an open port raises `SerialException` is an assumption, the one the handler at line 164 relies on; a driver that raises another exception there, or accepts the speed, is not modelled.
- Manager.GNSSManager.Connect: a second `connect` on an open manager drops the old port without closing it, and the old reader thread keeps running. The model replaces the port and has no second reader.
- Manager.GNSSManager.ScanCandidates: candidates are required to be non-negative, which `Valid` guarantees. The source never changes `self.baudrates`, and a negative candidate would raise an uncaught `ValueError` that the model does not cover.
- Text.ParseInt: accepts ASCII digits only and expects no surrounding whitespace, which `split()` guarantees. Python's `int()` also accepts other Unicode decimal digits. Recent Python versions (3.11 on, and security releases of earlier ones) also make `int()` raise `ValueError` on a decimal string of more than 4300 digits; the source names no Python version, and the model parses such a string to its value.
- Bytes.Encode: a Python `str` can hold a lone surrogate, and `(setting + '\r\n').encode()` (lines 69 and 87) then raises an uncaught `UnicodeEncodeError`. A Dafny `char` is a Unicode scalar value and cannot be a surrogate, so the model's encoding never fails and that exception is not modelled.
- The queue is unbounded, as `queue.Queue()` is.
- `disconnect` is annotated `-> bool` but returns nothing. The model's `Disconnect` has no result.

## Findings

| source | as written | input that shows it | evidently intended | confidence | as-written member | corrected member |
|---|---|---|---|---|---|---|
| GNSSManager.py:65-81 | `self.data_queue.empty()` only tests whether the queue is empty. The receiver's `OK!` for the `COM COM` command, sent at the old speed, stays queued, and the post-switch `check_connection` consumes it as the answer to its probe. | A receiver that acknowledges every command at 9600 baud and never changes speed, with `send_setting("COM COM1 115200")` at 9600: the call returns True with the line at 115200, where the receiver does not answer. | Drain the queue at both calls, so that success means the receiver answered at the new speed, and otherwise roll back. | medium, not executed | Settings.StaleAckConfirmsSwitch | Settings.DrainedSwitchNeedsAnswer |
| GNSSManager.py:155-163 | `self.data_queue.empty()` at line 157 only tests whether the queue is empty, so a token already queued when `check_baudrate` starts is popped by the first candidate's probe and taken as its answer. | `OK!` queued when detection starts, entry speed 9600, a receiver that never answers at 115200: `check_baudrate` returns 115200. | Clear the queue before each candidate's probe, so that only an answer at that speed counts. | low, not executed | Detect.StaleAckDetectsFirstTry | Detect.DrainedScanMissesSilentReceiver |

For detection, `Detect.ScanDrained` is the walk with the queue cleared before each candidate. `Detect.DrainedScanMissesSilentReceiver` proves it detects no receiver that is quiet at every candidate tried, with no premise on the queue. The class follows the code as written: `CheckBaudrate` is proved against `Detect.Scan`. That is why the detection lemmas `Detect.ScanFindsListener` and `Detect.ScanMissesSilentReceiver` assume no token is queued at the start.

`Settings.DrainedSwitchRollsBack` also shows that the drained version rolls
back for the same receiver. The class `Manager.GNSSManager` follows the code
as written: `SwitchBaudrate` is proved against `SwitchSpeed`, which does not
drain.
