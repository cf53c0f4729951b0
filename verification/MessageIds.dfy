/** Message ids: the sender's wrapping counter against the receiver's duplicate filter. */
module MessageIds {
  import opened Framing

  const CYCLE: nat := 32769

  /** The id the next message gets, from protocol_send_msg_id. */
  function NextId(counter: int): int {
    (if counter > 32768 then 0 else counter) + 1
  }

  /** protocol_send_msg_id of a socket that has numbered `k` messages. */
  function Counter(k: nat): int {
    if k == 0 then 0 else NextId(Counter(k - 1))
  }

  /** The id of message `k`, counted from 0. */
  function IdOf(k: nat): int {
    k % CYCLE + 1
  }

  lemma PlaceInCycle(k: nat)
    ensures (k + 1) % CYCLE == if k % CYCLE == CYCLE - 1 then 0 else k % CYCLE + 1
  {
    var q, r := k / CYCLE, k % CYCLE;
    assert k == q * CYCLE + r;
    if r == CYCLE - 1 {
      assert k + 1 == (q + 1) * CYCLE;
    } else {
      assert k + 1 == q * CYCLE + (r + 1);
    }
  }

  lemma {:induction false} CounterCycles(k: nat)
    ensures Counter(k + 1) == IdOf(k) == k % 32769 + 1
  {
    if k > 0 {
      CounterCycles(k - 1);
      PlaceInCycle(k - 1);
    }
  }

  /** protocol_receive_msg_id once the first `k` messages have been sent.  Those that do not
      fit into a block got an id but never left; the others arrive in order. */
  function LastAfter(fits: seq<bool>, k: nat): int
    requires k <= |fits|
    decreases k, 0
  {
    if k == 0 then 0
    else if Arrives(fits, k - 1) then Counter(k)
    else LastAfter(fits, k - 1)
  }

  /** Message `k` is sent and accepted. */
  predicate Arrives(fits: seq<bool>, k: nat)
    requires k < |fits|
    decreases k, 1
  {
    fits[k] && !Duplicate(Counter(k + 1), LastAfter(fits, k))
  }

  predicate NoneLost(fits: seq<bool>) {
    forall k :: 0 <= k < |fits| && fits[k] ==> Arrives(fits, k)
  }

  /** Every message that would start a later cycle fits. */
  predicate CycleStartsFit(fits: seq<bool>) {
    forall k :: 0 < k < |fits| && k % CYCLE == 0 ==> fits[k]
  }

  lemma {:induction false} LastStaysBehind(fits: seq<bool>, k: nat)
    requires k <= |fits| && CycleStartsFit(fits)
    ensures LastAfter(fits, k) <= Counter(k)
    ensures k > 0 && k % CYCLE == 1 ==> LastAfter(fits, k) <= 1
  {
    if k > 0 {
      LastStaysBehind(fits, k - 1);
      CounterCycles(k - 1);
      if k > 1 { CounterCycles(k - 2); }
    }
  }

  /** Messages may be too long anywhere else: as long as the first message of each later
      cycle leaves, everything that leaves is accepted, for ever. */
  lemma FreshMessagesAccepted(fits: seq<bool>)
    requires CycleStartsFit(fits)
    ensures NoneLost(fits)
  {
    forall k | 0 <= k < |fits| && fits[k] ensures Arrives(fits, k) {
      LastStaysBehind(fits, k);
      CounterCycles(k);
      if k > 0 { CounterCycles(k - 1); }
    }
  }

  lemma PlaceAfter(start: nat, j: nat)
    requires start % CYCLE == 0 && j < CYCLE
    ensures (start + j) % CYCLE == j && (start + CYCLE) % CYCLE == 0
  {
    var q := start / CYCLE;
    assert start == q * CYCLE;
    assert start + CYCLE == (q + 1) * CYCLE;
  }

  /** While the first message of a cycle is too long, the filter still holds the last id of
      the cycle before and takes the whole cycle for duplicates. */
  lemma {:induction false} CycleIsLost(fits: seq<bool>, start: nat, k: nat)
    requires 0 < start < k <= |fits| && start % CYCLE == 0 && k <= start + CYCLE
    requires Arrives(fits, start - 1) && !fits[start]
    ensures LastAfter(fits, k) == CYCLE
    ensures k < start + CYCLE && k < |fits| ==> !Arrives(fits, k)
    ensures k == start + CYCLE < |fits| && fits[k] ==> Arrives(fits, k)
  {
    CounterCycles(start - 1);
    CounterCycles(k - 1);
    CounterCycles(k);
    PlaceAfter(start - CYCLE, CYCLE - 1);
    PlaceAfter(start, k - 1 - start);
    if k < start + CYCLE { PlaceAfter(start, k - start); } else { PlaceAfter(start + CYCLE, 0); }
    if k > start + 1 { CycleIsLost(fits, start, k - 1); }
  }

  /** The id of the last message before `k` that fits; 0 if there is none. */
  function LastSent(fits: seq<bool>, k: nat): int
    requires k <= |fits|
  {
    if k == 0 then 0 else if fits[k - 1] then IdOf(k - 1) else LastSent(fits, k - 1)
  }

  /** Each message that fits starts a cycle or is numbered above the last one before it that
      fits: between two messages sent, no start of a cycle is left out. */
  predicate IdsRise(fits: seq<bool>) {
    forall k :: 0 <= k < |fits| && fits[k] && IdOf(k) > 1 ==> LastSent(fits, k) < IdOf(k)
  }

  lemma {:induction false} LastIsLastSent(fits: seq<bool>, k: nat)
    requires k <= |fits| && (NoneLost(fits) || IdsRise(fits))
    ensures LastAfter(fits, k) == LastSent(fits, k)
  {
    if k > 0 {
      LastIsLastSent(fits, k - 1);
      CounterCycles(k - 1);
    }
  }

  /** Whatever messages are too long: nothing that leaves is lost exactly if the ids of what
      leaves rise except where a cycle starts. */
  lemma NoneLostIff(fits: seq<bool>)
    ensures NoneLost(fits) <==> IdsRise(fits)
  {
    forall k | 0 <= k < |fits| && fits[k] && (NoneLost(fits) || IdsRise(fits))
      ensures Arrives(fits, k) <==> (IdOf(k) > 1 ==> LastSent(fits, k) < IdOf(k))
    {
      LastIsLastSent(fits, k);
      CounterCycles(k);
    }
  }

  /** When only messages that start a later cycle can be too long, and not the very last one,
      that is the case exactly if all of them fit. */
  lemma NoneLostIffStartsFit(fits: seq<bool>)
    requires forall k :: 0 <= k < |fits| && (k == 0 || k == |fits| - 1 || k % CYCLE != 0) ==> fits[k]
    ensures NoneLost(fits) <==> CycleStartsFit(fits)
  {
    if CycleStartsFit(fits) {
      FreshMessagesAccepted(fits);
    } else {
      var start :| 0 < start < |fits| && start % CYCLE == 0 && !fits[start];
      assert fits[start - 1] by { assert (start - 1) % CYCLE != 0; }
      assert fits[start + 1] by { assert (start + 1) % CYCLE != 0; }
      if NoneLost(fits) {
        CycleIsLost(fits, start, start + 1);
        assert false;
      }
    }
  }

  lemma {:induction false} LastWhenAllFit(fits: seq<bool>, k: nat)
    requires 0 < k <= |fits| && forall i :: 0 <= i < |fits| ==> fits[i]
    ensures LastAfter(fits, k) == IdOf(k - 1)
  {
    FreshMessagesAccepted(fits);
    CounterCycles(k - 1);
  }

  /** A message that comes a second time is rejected exactly if it is not the first of its
      cycle and its place in the cycle has been reached again. */
  lemma ReplayRejectedIff(fits: seq<bool>, j: nat)
    requires j < |fits| && forall i :: 0 <= i < |fits| ==> fits[i]
    ensures Duplicate(Counter(j + 1), LastAfter(fits, |fits|)) <==> 0 < j % CYCLE <= (|fits| - 1) % CYCLE
  {
    LastWhenAllFit(fits, |fits|);
    CounterCycles(j);
  }

  /** In particular every message of the current cycle but the first. */
  lemma CurrentCycleReplayRejected(fits: seq<bool>, j: nat)
    requires j < |fits| && forall i :: 0 <= i < |fits| ==> fits[i]
    requires j / CYCLE == (|fits| - 1) / CYCLE
    ensures Duplicate(Counter(j + 1), LastAfter(fits, |fits|)) <==> Counter(j + 1) > 1
  {
    ReplayRejectedIff(fits, j);
    CounterCycles(j);
  }
}
