/**
  The acknowledgment protocol: a received chunk acknowledges a command when it
  contains the token `OK!` anywhere, and the waiter pops at most one chunk per
  poll for a bounded number of polls.
 */
module Ack {

  import opened Bytes

  /** `b'OK!'`. */
  const OkToken: seq<Byte> := [0x4F, 0x4B, 0x21]

  /** `data and b'OK!' in data`; an empty chunk is falsy and holds no token anyway. */
  predicate HasAck(chunk: Chunk)
  {
    Contains(chunk, OkToken)
  }

  predicate NoAck(q: seq<Chunk>)
  {
    forall k | 0 <= k < |q| :: !HasAck(q[k])
  }

  function Min(a: nat, b: nat): nat
  {
    if a <= b then a else b
  }

  /** What a bounded wait ends with: whether it saw the token, and what is left queued. */
  datatype Wait = Wait(acked: bool, rest: seq<Chunk>)

  /** A wait of `polls` polls over the queue `q`, with nothing arriving meanwhile:
      each poll pops the oldest chunk if there is one and stops on a chunk that
      holds the token; a poll on an empty queue finds nothing and only counts. */
  function AwaitAck(q: seq<Chunk>, polls: nat): Wait
  {
    if polls == 0 || q == [] then Wait(false, q)
    else if HasAck(q[0]) then Wait(true, q[1..])
    else AwaitAck(q[1..], polls - 1)
  }

  /** The wait succeeds exactly when one of the first `min(|q|, polls)` chunks holds the token. */
  lemma {:induction false} AwaitAckIff(q: seq<Chunk>, polls: nat)
    ensures AwaitAck(q, polls).acked <==> exists k | 0 <= k < Min(|q|, polls) :: HasAck(q[k])
  {
    if polls != 0 && q != [] && !HasAck(q[0]) {
      AwaitAckIff(q[1..], polls - 1);
      if exists k | 0 <= k < Min(|q|, polls) :: HasAck(q[k]) {
        var k :| 0 <= k < Min(|q|, polls) && HasAck(q[k]);
        assert q[1..][k - 1] == q[k];
      }
      if exists k | 0 <= k < Min(|q| - 1, polls - 1) :: HasAck(q[1..][k]) {
        var k :| 0 <= k < Min(|q| - 1, polls - 1) && HasAck(q[1..][k]);
        assert q[1..][k] == q[k + 1];
      }
    }
  }

  /** On success, exactly the chunks up to and including the first one holding
      the token are consumed; nothing after it is touched. */
  lemma {:induction false} AwaitAckStopsAtFirst(q: seq<Chunk>, polls: nat, k: nat)
    requires k < Min(|q|, polls) && HasAck(q[k])
    requires NoAck(q[..k])
    ensures AwaitAck(q, polls) == Wait(true, q[k + 1..])
  {
    if k > 0 {
      assert q[..k][0] == q[0];
      var tail := q[1..][..k - 1];
      assert NoAck(tail) by {
        forall j | 0 <= j < k - 1 ensures !HasAck(tail[j]) {
          assert tail[j] == q[..k][j + 1];
        }
      }
      AwaitAckStopsAtFirst(q[1..], polls - 1, k - 1);
      assert q[1..][k..] == q[k + 1..];
    }
  }

  /** On failure, exactly `min(|q|, polls)` chunks are consumed. */
  lemma {:induction false} AwaitAckMissesAll(q: seq<Chunk>, polls: nat)
    requires NoAck(q[..Min(|q|, polls)])
    ensures AwaitAck(q, polls) == Wait(false, q[Min(|q|, polls)..])
  {
    if polls != 0 && q != [] {
      assert q[..Min(|q|, polls)][0] == q[0];
      var m := Min(|q| - 1, polls - 1);
      assert NoAck(q[1..][..m]) by {
        forall j | 0 <= j < m ensures !HasAck(q[1..][..m][j]) {
          assert q[1..][..m][j] == q[..Min(|q|, polls)][j + 1];
        }
      }
      AwaitAckMissesAll(q[1..], polls - 1);
      assert q[1..][m..] == q[m + 1..];
    }
  }

  /** Whatever happens, the wait pops a prefix of at most `polls` chunks and
      leaves the rest in order. */
  lemma {:induction false} AwaitAckPopsPrefix(q: seq<Chunk>, polls: nat)
    ensures exists k | 0 <= k <= Min(|q|, polls) :: AwaitAck(q, polls).rest == q[k..]
  {
    if polls == 0 || q == [] {
      assert AwaitAck(q, polls).rest == q[0..];
    } else if HasAck(q[0]) {
      assert AwaitAck(q, polls).rest == q[1..];
    } else {
      AwaitAckPopsPrefix(q[1..], polls - 1);
      var k :| 0 <= k <= Min(|q| - 1, polls - 1) && AwaitAck(q[1..], polls - 1).rest == q[1..][k..];
      assert q[1..][k..] == q[k + 1..];
    }
  }

  /** With no token anywhere in the queue, a wait fails and leaves no token behind. */
  lemma NoAckWaitFails(q: seq<Chunk>, polls: nat)
    requires NoAck(q)
    ensures AwaitAck(q, polls) == Wait(false, q[Min(|q|, polls)..])
    ensures NoAck(AwaitAck(q, polls).rest)
  {
    AwaitAckMissesAll(q, polls);
    var m := Min(|q|, polls);
    forall j | 0 <= j < |q| - m ensures !HasAck(q[m..][j]) {
      assert q[m..][j] == q[m + j];
    }
  }

  /** A reply holding the token behind fewer than `polls` stale chunks without
      one is seen, and the whole queue is consumed. */
  lemma ReplySeenBehindStale(stale: seq<Chunk>, reply: Chunk, polls: nat)
    requires NoAck(stale) && HasAck(reply) && |stale| < polls
    ensures AwaitAck(stale + [reply], polls) == Wait(true, [])
  {
    var q := stale + [reply];
    assert q[..|stale|] == stale;
    AwaitAckStopsAtFirst(q, polls, |stale|);
  }

  /** Two token-free queues joined are token-free. */
  lemma NoAckAppend(a: seq<Chunk>, b: seq<Chunk>)
    requires NoAck(a) && NoAck(b)
    ensures NoAck(a + b)
  {
    forall k | 0 <= k < |a + b| ensures !HasAck((a + b)[k]) {
      if k >= |a| { assert (a + b)[k] == b[k - |a|]; }
    }
  }
}
