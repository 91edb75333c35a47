/**
  Baud-rate detection as a pure specification. `check_baudrate` walks a list
  of candidate speeds; what each step does depends only on the receiver, the
  speeds the driver supports, and the few pieces of state the walk touches.
  `Scan` is that walk written as a function over a `Snapshot` of the state,
  and the lemmas here are what the walk promises: which candidates it tries
  and in what order, that it stops at the first one answered, that a silent
  receiver is never detected, and that a receiver listening at one candidate
  is found there.
 */
module Detect {

  import opened Wrappers
  import opened Bytes
  import opened Ack
  import opened Serial
  import opened Steps

  /** `self.baudrates`: the candidate speeds, most likely first. */
  const BaudRates: seq<int> := [115200, 921600, 57600, 38400, 19200, 9600, 230400, 460800, 4800, 1200]

  /** Polls in the one-second wait of each detection probe (`timeout = 1`, five polls a second). */
  const DetectPolls: nat := 5

  // ---------------------------------------------------------------------------
  // The candidate list

  /** The candidates in list order, without the speed in effect at entry. */
  function Skipping(cands: seq<int>, skip: int): seq<int>
  {
    if cands == [] then []
    else (if cands[0] == skip then [] else [cands[0]]) + Skipping(cands[1..], skip)
  }

  /** Skipping drops exactly the entry speed and keeps every other candidate. */
  lemma {:induction false} SkippingMembers(cands: seq<int>, skip: int, x: int)
    ensures x in Skipping(cands, skip) <==> x in cands && x != skip
  {
    if cands != [] {
      SkippingMembers(cands[1..], skip, x);
      assert cands == [cands[0]] + cands[1..];
    }
  }

  predicate IsPrefix(a: seq<int>, b: seq<int>)
  {
    |a| <= |b| && b[..|a|] == a
  }

  /** Every speed is above zero. */
  predicate Positive(s: seq<int>)
  {
    forall k | 0 <= k < |s| :: s[k] > 0
  }

  /** No speed is listed twice. */
  predicate Distinct(s: seq<int>)
  {
    forall i, j | 0 <= i < j < |s| :: s[i] != s[j]
  }

  /** Skipping keeps a list of distinct speeds distinct. */
  lemma {:induction false} SkippingDistinct(cands: seq<int>, skip: int)
    requires Distinct(cands)
    ensures Distinct(Skipping(cands, skip))
  {
    if cands != [] {
      var tail := cands[1..];
      assert Distinct(tail) by {
        forall i, j | 0 <= i < j < |tail| ensures tail[i] != tail[j] {
          assert tail[i] == cands[i + 1] && tail[j] == cands[j + 1];
        }
      }
      SkippingDistinct(tail, skip);
      var head := cands[0];
      SkippingMembers(tail, skip, head);
      assert head !in tail by {
        forall i | 0 <= i < |tail| ensures tail[i] != head {
          assert tail[i] == cands[i + 1];
        }
      }
      var rest := Skipping(tail, skip);
      if head != skip {
        assert Skipping(cands, skip) == [head] + rest;
        forall i, j | 0 <= i < j < |rest| + 1 ensures ([head] + rest)[i] != ([head] + rest)[j] {
          if i == 0 {
            assert ([head] + rest)[j] == rest[j - 1] && rest[j - 1] in rest;
          } else {
            assert ([head] + rest)[i] == rest[i - 1] && ([head] + rest)[j] == rest[j - 1];
          }
        }
      }
    }
  }

  /** The candidate list holds no speed twice. */
  lemma BaudRatesDistinct()
    ensures Distinct(BaudRates) && Positive(BaudRates)
  {
  }

  /** A pass over distinct candidates tries each speed at most once. */
  lemma TriedOnce(cands: seq<int>, skip: int, tried: seq<int>)
    requires Distinct(cands) && IsPrefix(tried, Skipping(cands, skip))
    ensures Distinct(tried)
  {
    SkippingDistinct(cands, skip);
    var all := Skipping(cands, skip);
    forall i, j | 0 <= i < j < |tried| ensures tried[i] != tried[j] {
      assert tried[i] == all[i] && tried[j] == all[j];
    }
  }

  /** A speed a pass tried is one of the candidates and not the entry speed. */
  lemma TriedIsCandidate(cands: seq<int>, skip: int, tried: seq<int>, k: nat)
    requires IsPrefix(tried, Skipping(cands, skip)) && k < |tried|
    ensures tried[k] in cands && tried[k] != skip
  {
    var all := Skipping(cands, skip);
    assert tried[k] == all[k];
    SkippingMembers(cands, skip, tried[k]);
  }

  // ---------------------------------------------------------------------------
  // One detection pass

  /** What happened at one candidate speed. */
  datatype Probe = Refused | Probed(acked: bool)
  datatype Attempt = Attempt(baud: int, probe: Probe)

  /** The speeds a pass tried, in order. */
  function Bauds(attempts: seq<Attempt>): (r: seq<int>)
    ensures |r| == |attempts|
  {
    if attempts == [] then [] else [attempts[0].baud] + Bauds(attempts[1..])
  }

  /** One candidate. The configured speed becomes `baud` whatever happens next.
      A speed the driver does not support raises `SerialException`, which the
      pass catches: the line and the queue stay as they were. Otherwise the
      line moves to `baud` and a one-second probe runs there. Any exception
      counts as a refusal here, while the source catches `SerialException`
      only; the two agree on non-negative candidates, the only kind the
      candidate list holds, since only a negative speed raises `ValueError`. */
  function TryAt(d: Device, supported: set<int>, st: Snapshot, baud: int): (Probe, Snapshot)
  {
    var (raised, moved) := ChangeSpeed(supported, st, baud);
    if raised.Some? then (Refused, moved)
    else
      var (acked, probed) := CheckLine(d, moved, DetectPolls);
      (Probed(acked), probed)
  }

  /** How a pass ends: the detected speed if any, the attempts made, and the state. */
  datatype Pass = Pass(detected: Option<int>, attempts: seq<Attempt>, after: Snapshot)

  /** `p` preceded by attempts made earlier in the same pass. */
  function Prepend(earlier: seq<Attempt>, p: Pass): Pass
  {
    p.(attempts := earlier + p.attempts)
  }

  /** The loop of `check_baudrate`: skip the entry speed, try each candidate
      in turn, return the first one whose probe is acknowledged. */
  function Scan(d: Device, supported: set<int>, cands: seq<int>, skip: int, st: Snapshot): Pass
    decreases |cands|
  {
    if cands == [] then Pass(None, [], st)
    else if cands[0] == skip then Scan(d, supported, cands[1..], skip, st)
    else
      var (probe, next) := TryAt(d, supported, st, cands[0]);
      if probe == Probed(true) then Pass(Some(cands[0]), [Attempt(cands[0], probe)], next)
      else Prepend([Attempt(cands[0], probe)], Scan(d, supported, cands[1..], skip, next))
  }

  /** A pass tries the candidates in list order, skipping the entry speed, and
      tries all of them when it detects nothing. */
  lemma {:induction false} ScanTriesInOrder(d: Device, supported: set<int>, cands: seq<int>, skip: int, st: Snapshot)
    ensures IsPrefix(Bauds(Scan(d, supported, cands, skip, st).attempts), Skipping(cands, skip))
    ensures Scan(d, supported, cands, skip, st).detected == None ==>
              Bauds(Scan(d, supported, cands, skip, st).attempts) == Skipping(cands, skip)
    decreases |cands|
  {
    if cands != [] {
      var c := cands[0];
      if c == skip {
        ScanTriesInOrder(d, supported, cands[1..], skip, st);
      } else {
        var (probe, next) := TryAt(d, supported, st, c);
        var all := Skipping(cands, skip);
        assert all == [c] + Skipping(cands[1..], skip);
        if probe == Probed(true) {
          assert Bauds([Attempt(c, probe)]) == [c];
        } else {
          var r := Scan(d, supported, cands[1..], skip, next);
          ScanTriesInOrder(d, supported, cands[1..], skip, next);
          var attempts := [Attempt(c, probe)] + r.attempts;
          assert attempts[1..] == r.attempts;
          assert Bauds(attempts) == [c] + Bauds(r.attempts);
          assert all[..|attempts|] == [c] + Skipping(cands[1..], skip)[..|r.attempts|];
        }
      }
    }
  }

  /** A pass stops at the first acknowledged probe: it detects a speed exactly
      when its last attempt was acknowledged, no earlier attempt was, and it
      leaves both the configured speed and the line at the detected speed. */
  lemma {:induction false} ScanStopsAtFirstAck(d: Device, supported: set<int>, cands: seq<int>, skip: int, st: Snapshot)
    ensures var p := Scan(d, supported, cands, skip, st);
      && (p.detected.Some? <==> p.attempts != [] && p.attempts[|p.attempts| - 1].probe == Probed(true))
      && (forall k | 0 <= k < |p.attempts| - 1 :: p.attempts[k].probe != Probed(true))
      && (p.detected.Some? ==>
            && p.detected.value == p.attempts[|p.attempts| - 1].baud
            && p.after.baudrate == p.detected.value && p.after.lineBaud == p.detected.value)
    decreases |cands|
  {
    if cands != [] {
      var c := cands[0];
      if c == skip {
        ScanStopsAtFirstAck(d, supported, cands[1..], skip, st);
      } else {
        var (probe, next) := TryAt(d, supported, st, c);
        if probe != Probed(true) {
          var r := Scan(d, supported, cands[1..], skip, next);
          ScanStopsAtFirstAck(d, supported, cands[1..], skip, next);
          var attempts := [Attempt(c, probe)] + r.attempts;
          forall k | 0 <= k < |attempts| - 1 ensures attempts[k].probe != Probed(true) {
            if k > 0 {
              assert attempts[k] == r.attempts[k - 1];
            }
          }
          if r.attempts != [] {
            assert attempts[|attempts| - 1] == r.attempts[|r.attempts| - 1];
          }
        }
      }
    }
  }

  /** A detected speed is one of the candidates and not the entry speed. */
  lemma {:induction false} ScanDetectsCandidate(d: Device, supported: set<int>, cands: seq<int>, skip: int, st: Snapshot)
    ensures var p := Scan(d, supported, cands, skip, st);
      p.detected.Some? ==> p.detected.value in cands && p.detected.value != skip
    decreases |cands|
  {
    if cands != [] {
      var (probe, next) := TryAt(d, supported, st, cands[0]);
      if cands[0] == skip {
        ScanDetectsCandidate(d, supported, cands[1..], skip, st);
      } else if probe != Probed(true) {
        ScanDetectsCandidate(d, supported, cands[1..], skip, next);
      }
    }
  }

  /** A pass keeps the line at a speed the port accepts. */
  lemma {:induction false} ScanKeepsLineSettable(d: Device, supported: set<int>, cands: seq<int>, skip: int, st: Snapshot)
    requires Settable(supported, st.lineBaud)
    ensures Settable(supported, Scan(d, supported, cands, skip, st).after.lineBaud)
    decreases |cands|
  {
    if cands != [] {
      var (probe, next) := TryAt(d, supported, st, cands[0]);
      if cands[0] == skip {
        ScanKeepsLineSettable(d, supported, cands[1..], skip, st);
      } else if probe != Probed(true) {
        ScanKeepsLineSettable(d, supported, cands[1..], skip, next);
      }
    }
  }

  // ---------------------------------------------------------------------------
  // Receivers

  /** A reply holding the token, as the receiver might send it. */
  const AckReply: Chunk := OkToken + [0x0D, 0x0A]

  lemma AckReplyHasAck()
    ensures HasAck(AckReply)
  {
    assert OccursAt(AckReply, OkToken, 0);
  }

  /** A receiver that answers every write made at speed `s` with `AckReply`
      and every other write with nothing. */
  ghost predicate AcksExactlyAt(d: Device, s: int)
  {
    forall h: seq<Transmission> :: h != [] ==> Reply(d, h) == if h[|h| - 1].baud == s then [AckReply] else []
  }

  /** A receiver that never sends the token in answer to a write made at
      one of `speeds`; at other speeds it may answer as it likes. */
  ghost predicate QuietAt(d: Device, speeds: seq<int>)
  {
    forall h: seq<Transmission> | h != [] && h[|h| - 1].baud in speeds :: NoAck(Reply(d, h))
  }

  /** The situation where detection is bound to find `s`: the receiver listens
      only at `s`, the port accepts `s`, and fewer than five stale chunks,
      none holding the token, sit in the queue. */
  ghost predicate Detectable(d: Device, supported: set<int>, s: int, stale: seq<Chunk>)
  {
    AcksExactlyAt(d, s) && Settable(supported, s) && NoAck(stale) && |stale| < DetectPolls
  }

  /** A probe against a receiver listening only at `s`, with fewer stale
      chunks than polls and no token among them, succeeds exactly when the
      line runs at `s`, and leaves the queue empty either way. */
  lemma ProbeAgainstListener(d: Device, s: int, st: Snapshot, polls: nat)
    requires AcksExactlyAt(d, s) && NoAck(st.queue) && |st.queue| < polls
    ensures CheckLine(d, st, polls).0 <==> st.lineBaud == s
    ensures CheckLine(d, st, polls).1.queue == []
  {
    var written := st.written + [Transmission(st.lineBaud, ProbeBytes)];
    if st.lineBaud == s {
      AckReplyHasAck();
      ReplySeenBehindStale(st.queue, AckReply, polls);
    } else {
      assert st.queue + Reply(d, written) == st.queue;
      NoAckWaitFails(st.queue, polls);
    }
  }

  /** A probe at a speed where the receiver stays quiet fails and leaves no
      token queued, provided none was queued before. */
  lemma ProbeSilentReceiver(d: Device, speeds: seq<int>, st: Snapshot, polls: nat)
    requires QuietAt(d, speeds) && st.lineBaud in speeds && NoAck(st.queue)
    ensures !CheckLine(d, st, polls).0 && NoAck(CheckLine(d, st, polls).1.queue)
  {
    var written := st.written + [Transmission(st.lineBaud, ProbeBytes)];
    assert written[|written| - 1].baud == st.lineBaud;
    NoAckAppend(st.queue, Reply(d, written));
    NoAckWaitFails(st.queue + Reply(d, written), polls);
  }

  /** A receiver quiet at every candidate the pass tries is not detected,
      whatever it does at the entry speed or at speeds off the list, provided
      no token is queued when the pass starts. */
  lemma {:induction false} ScanMissesSilentReceiver(d: Device, supported: set<int>, cands: seq<int>, skip: int, st: Snapshot)
    requires QuietAt(d, Skipping(cands, skip)) && NoAck(st.queue)
    ensures Scan(d, supported, cands, skip, st).detected == None
    decreases |cands|
  {
    if cands != [] {
      var c := cands[0];
      var rest := Skipping(cands[1..], skip);
      assert Skipping(cands, skip) == (if c == skip then [] else [c]) + rest;
      assert QuietAt(d, rest);
      if c == skip {
        ScanMissesSilentReceiver(d, supported, cands[1..], skip, st);
      } else {
        var (probe, next) := TryAt(d, supported, st, c);
        if Settable(supported, c) {
          ProbeSilentReceiver(d, Skipping(cands, skip), ChangeSpeed(supported, st, c).1, DetectPolls);
        }
        ScanMissesSilentReceiver(d, supported, cands[1..], skip, next);
      }
    }
  }

  /** As written, a token already queued when a pass starts is taken as the
      answer at the first candidate tried, even from a receiver quiet there:
      `data_queue.empty()` does not clear the queue before the probe. */
  lemma StaleAckDetectsFirstTry(d: Device, supported: set<int>, cands: seq<int>, skip: int, st: Snapshot)
    requires cands != [] && cands[0] != skip && Settable(supported, cands[0])
    requires QuietAt(d, [cands[0]]) && st.queue == [AckReply]
    ensures Scan(d, supported, cands, skip, st).detected == Some(cands[0])
  {
    var moved := ChangeSpeed(supported, st, cands[0]).1;
    var written := moved.written + [Transmission(cands[0], ProbeBytes)];
    assert written[|written| - 1].baud in [cands[0]];
    var q := [AckReply] + Reply(d, written);
    assert q[0] == AckReply;
    AckReplyHasAck();
  }

  /** The walk as its design intends it: the queue is cleared before each
      candidate is tried, so only an answer to that candidate's probe counts. */
  function ScanDrained(d: Device, supported: set<int>, cands: seq<int>, skip: int, st: Snapshot): Pass
    decreases |cands|
  {
    if cands == [] then Pass(None, [], st)
    else if cands[0] == skip then ScanDrained(d, supported, cands[1..], skip, st)
    else
      var (probe, next) := TryAt(d, supported, st.(queue := []), cands[0]);
      if probe == Probed(true) then Pass(Some(cands[0]), [Attempt(cands[0], probe)], next)
      else Prepend([Attempt(cands[0], probe)], ScanDrained(d, supported, cands[1..], skip, next))
  }

  /** With the queue cleared before each probe, a receiver quiet at every
      candidate the pass tries is not detected, whatever was queued before. */
  lemma {:induction false} DrainedScanMissesSilentReceiver(d: Device, supported: set<int>, cands: seq<int>, skip: int, st: Snapshot)
    requires QuietAt(d, Skipping(cands, skip))
    ensures ScanDrained(d, supported, cands, skip, st).detected == None
    decreases |cands|
  {
    if cands != [] {
      var c := cands[0];
      var rest := Skipping(cands[1..], skip);
      assert Skipping(cands, skip) == (if c == skip then [] else [c]) + rest;
      assert QuietAt(d, rest);
      if c == skip {
        DrainedScanMissesSilentReceiver(d, supported, cands[1..], skip, st);
      } else {
        var (probe, next) := TryAt(d, supported, st.(queue := []), c);
        if Settable(supported, c) {
          ProbeSilentReceiver(d, Skipping(cands, skip), ChangeSpeed(supported, st.(queue := []), c).1, DetectPolls);
        }
        DrainedScanMissesSilentReceiver(d, supported, cands[1..], skip, next);
      }
    }
  }

  /** A receiver listening only at a supported candidate other than the entry
      speed is detected at exactly that speed, provided the stale queue holds
      no token and fewer chunks than one wait can drain. */
  lemma {:induction false} ScanFindsListener(d: Device, supported: set<int>, cands: seq<int>, skip: int, st: Snapshot, s: int)
    requires Detectable(d, supported, s, st.queue) && s in cands && s != skip
    ensures Scan(d, supported, cands, skip, st).detected == Some(s)
    decreases |cands|
  {
    var c := cands[0];
    assert cands == [c] + cands[1..];
    if c == skip {
      ScanFindsListener(d, supported, cands[1..], skip, st, s);
    } else {
      var (probe, next) := TryAt(d, supported, st, c);
      if c in supported {
        ProbeAgainstListener(d, s, ChangeSpeed(supported, st, c).1, DetectPolls);
      }
      if c != s {
        ScanFindsListener(d, supported, cands[1..], skip, next, s);
      }
    }
  }
}
