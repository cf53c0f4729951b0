/** What one run of the queue loop achieves when no stage is finished at entry: it is greedy
    and follows the order of the queue. */
module QueuePass {
  import opened Entities
  import opened ProcessSteps
  import opened ServerSteps
  import opened Guarantees

  /** No process is about to leave its current stage. */
  predicate NoneDone(s: Server) {
    Staged(s) && forall i :: 0 <= i < |s.processes| ==> !StageDone(Cur(s.processes[i]))
  }

  /** Process `i` has nothing for the free node `m`. */
  predicate Declines(env: Env, s: Server, i: int, m: int)
    requires Staged(s)
  {
    0 <= i < |s.processes| && Free(s.nodes, m) ==> !Offers(env, s.processes[i], s.nodes[m].value)
  }

  /** All processes before `i`, and process `i` for the nodes before `n`, decline. */
  ghost predicate DeclinedUpTo(env: Env, s: Server, i: int, n: int)
    requires Staged(s)
  {
    && (forall k, m :: 0 <= k < i && 0 <= m < |s.nodes| ==> Declines(env, s, k, m))
    && (forall m :: 0 <= m < n && m < |s.nodes| ==> Declines(env, s, i, m))
  }

  /** Node `m`, which was `node` while it was free, has gone to process `k`; all processes
      before `k` have nothing for it. */
  ghost predicate WentInOrder(env: Env, node: Node, r: Server, m: int)
    requires Staged(r) && Live(r.nodes, m)
  {
    exists k, j :: StartedAt(r, k, j, m) && r.processes[k].id == r.nodes[m].value.processId
                   && TheModule(r, k, j).name == r.nodes[m].value.running
                   && forall l :: 0 <= l < k ==> !Offers(env, r.processes[l], node)
  }

  /** Starting a ready module for one node gives no other declined node a job. */
  lemma StartKeepsDeclined(env: Env, p: Process, j: nat, n: int, other: Node)
    requires p.current < |p.stages| && j < |Cur(p)|
    requires Ready(env, p.id, Cur(p)[j].name)
    requires !Offers(env, p, other)
    ensures !Offers(env, WithCur(p, StartModule(Cur(p), j, n)), other)
  {
    var q := WithCur(p, StartModule(Cur(p), j, n));
    var f, g := FirstEligible(Cur(p), other), FirstEligible(Cur(q), other);
    forall k | 0 <= k < |Cur(p)| && k != j ensures Eligible(Cur(q)[k], other) <==> Eligible(Cur(p)[k], other) {}
    assert f < |Cur(p)| ==> f != j && Eligible(Cur(q)[f], other) && g == f;
    assert g < |Cur(q)| ==> Eligible(Cur(p)[g], other);
  }

  /** The state after node `n` took module `j` of process `i`. */
  function Taken(s: Server, i: nat, j: nat, n: nat): Server
    requires Staged(s) && i < |s.processes| && j < |Cur(s.processes[i])| && Live(s.nodes, n)
  {
    var p := s.processes[i];
    var q := WithCur(p, StartModule(Cur(p), j, n));
    SetNode(SetProcess(s, i, q), n, Occupied(s.nodes[n].value, q.id, Cur(p)[j].name))
  }

  lemma TakenAdvances(env: Env, s: Server, i: nat, j: nat, n: nat)
    requires NoneDone(s) && i < |s.processes| && Free(s.nodes, n) && DeclinedUpTo(env, s, i, n)
    requires j == FirstEligible(Cur(s.processes[i]), s.nodes[n].value) && Offers(env, s.processes[i], s.nodes[n].value)
    ensures var t := Taken(s, i, j, n);
            && NoneDone(t) && DeclinedUpTo(env, t, i, n + 1)
            && TheModule(t, i, j) == TheModule(s, i, j).(status := Started, node := n)
  {
    var t := Taken(s, i, j, n);
    assert !Over(Cur(t.processes[i])[j]);
    forall m | 0 <= m < n + 1 ensures Declines(env, t, i, m) {
      if m < n {
        assert Declines(env, s, i, m);
        if Free(s.nodes, m) { StartKeepsDeclined(env, s.processes[i], j, n, s.nodes[m].value); }
      }
    }
    forall k, m | 0 <= k < i && 0 <= m < |t.nodes| ensures Declines(env, t, k, m) { assert Declines(env, s, k, m); }
  }

  /** How the loop leaves the server when it goes on from process `i`. */
  ghost predicate Settled(env: Env, s: Server, r: Server, i: int)
    requires Staged(s)
  {
    && NoneDone(r) && |r.processes| == |s.processes| && |r.nodes| == |s.nodes|
    && (forall k :: 0 <= k < i && k < |s.processes| ==> r.processes[k] == s.processes[k])
    && (forall m :: 0 <= m < |s.nodes| && (Free(r.nodes, m) || !Free(s.nodes, m)) ==> r.nodes[m] == s.nodes[m])
    && (forall k, m :: 0 <= k < |r.processes| && 0 <= m < |r.nodes| ==> Declines(env, r, k, m))
  }

  lemma TakenSettles(env: Env, s: Server, i: nat, j: nat, n: nat, r: Server)
    requires Staged(s) && i < |s.processes| && j < |Cur(s.processes[i])| && Free(s.nodes, n)
    requires Settled(env, Taken(s, i, j, n), r, i)
    ensures Settled(env, s, r, i)
  {
  }

  lemma AllDeclined(env: Env, s: Server, i: nat, n: nat)
    requires Staged(s) && i < |s.processes| && n >= |s.nodes| && DeclinedUpTo(env, s, i, n)
    ensures DeclinedUpTo(env, s, i + 1, 0)
  {
  }

  lemma AllSettled(env: Env, s: Server, i: nat, n: nat)
    requires NoneDone(s) && i >= |s.processes| && DeclinedUpTo(env, s, i, n)
    ensures Settled(env, s, s, i)
  {
  }

  lemma SettledFurther(env: Env, s: Server, r: Server, i: nat)
    requires Staged(s) && Settled(env, s, r, i + 1)
    ensures Settled(env, s, r, i)
  {
  }

  /** Asking a process that has nothing for the node changes nothing. */
  lemma AskDeclined(env: Env, s: Server, i: nat, n: nat)
    requires Staged(s) && i < |s.processes| && Free(s.nodes, n)
    requires !StageDone(Cur(s.processes[i])) && !Offers(env, s.processes[i], s.nodes[n].value)
    ensures Ask(env, s, i, n) == s
  {
    assert SetProcess(s, i, s.processes[i]) == s;
  }

  lemma AskTaken(env: Env, s: Server, i: nat, n: nat)
    requires NoneDone(s) && i < |s.processes| && Free(s.nodes, n) && Offers(env, s.processes[i], s.nodes[n].value)
    ensures var j := FirstEligible(Cur(s.processes[i]), s.nodes[n].value);
            j < |Cur(s.processes[i])| && Ask(env, s, i, n) == Taken(s, i, j, n)
  {
  }

  lemma DeclinedNext(env: Env, s: Server, i: nat, n: nat)
    requires Staged(s) && i < |s.processes| && DeclinedUpTo(env, s, i, n)
    requires Free(s.nodes, n) ==> !Offers(env, s.processes[i], s.nodes[n].value)
    ensures DeclinedUpTo(env, s, i, n + 1)
  {
  }

  /** From a point where everything before has been declined, the loop ends with every
      free node declined by every process. */
  lemma {:induction false} PassIsGreedy(env: Env, s: Server, i: nat, n: nat)
    requires NoneDone(s) && i <= |s.processes| && DeclinedUpTo(env, s, i, n)
    ensures !Pass(env, s, i, n).strayed && Settled(env, s, Pass(env, s, i, n).s, i)
    decreases |s.processes| - i, |s.nodes| - n
  {
    hide DeclinedUpTo, Settled, Offers, GiveJob;
    if i >= |s.processes| {
      AllSettled(env, s, i, n);
    } else if n >= |s.nodes| {
      AllDeclined(env, s, i, n);
      PassIsGreedy(env, s, i + 1, 0);
      SettledFurther(env, s, Pass(env, s, i + 1, 0).s, i);
    } else if !Free(s.nodes, n) {
      DeclinedNext(env, s, i, n);
      PassIsGreedy(env, s, i, n + 1);
    } else {
      var p, node := s.processes[i], s.nodes[n].value;
      if !Offers(env, p, node) {
        DeclinedNext(env, s, i, n);
        AskDeclined(env, s, i, n);
        PassIsGreedy(env, s, i, n + 1);
      } else {
        var j := FirstEligible(Cur(p), node);
        AskTaken(env, s, i, n);
        TakenAdvances(env, s, i, j, n);
        PassIsGreedy(env, Taken(s, i, j, n), i, n + 1);
        TakenSettles(env, s, i, j, n, Pass(env, Taken(s, i, j, n), i, n + 1).s);
      }
    }
  }

  lemma TakenStays(s: Server, i: nat, j: nat, n: nat)
    requires NoneDone(s) && i < |s.processes| && j < |Cur(s.processes[i])| && Live(s.nodes, n)
    ensures NoneDone(Taken(s, i, j, n))
  {
    assert !Over(Cur(Taken(s, i, j, n).processes[i])[j]);
  }

  /** With no stage finished at entry the loop completes no process and stays inside its
      vector. */
  lemma {:induction false} PassStays(env: Env, s: Server, i: nat, n: nat)
    requires NoneDone(s) && i <= |s.processes|
    ensures var r := Pass(env, s, i, n); !r.strayed && NoneDone(r.s) && |r.s.processes| == |s.processes|
    decreases |s.processes| - i, |s.nodes| - n
  {
    if i >= |s.processes| {
    } else if n >= |s.nodes| {
      PassStays(env, s, i + 1, 0);
    } else if !Free(s.nodes, n) {
      PassStays(env, s, i, n + 1);
    } else {
      var p, node := s.processes[i], s.nodes[n].value;
      if !Offers(env, p, node) {
        assert SetProcess(s, i, p) == s;
        PassStays(env, s, i, n + 1);
      } else {
        var j := FirstEligible(Cur(p), node);
        TakenStays(s, i, j, n);
        PassStays(env, Taken(s, i, j, n), i, n + 1);
      }
    }
  }

  /** A running module keeps running through the loop. */
  lemma {:induction false} PassKeepsModule(env: Env, s: Server, i: nat, n: nat, k: int, j: int, m: int)
    requires NoneDone(s) && i <= |s.processes| && StartedAt(s, k, j, m)
    ensures var r := Pass(env, s, i, n).s;
            StartedAt(r, k, j, m) && TheModule(r, k, j) == TheModule(s, k, j) && r.processes[k].id == s.processes[k].id
    decreases |s.processes| - i, |s.nodes| - n
  {
    if i >= |s.processes| {
    } else if n >= |s.nodes| {
      PassKeepsModule(env, s, i + 1, 0, k, j, m);
    } else if !Free(s.nodes, n) {
      PassKeepsModule(env, s, i, n + 1, k, j, m);
    } else {
      var p, node := s.processes[i], s.nodes[n].value;
      if !Offers(env, p, node) {
        assert SetProcess(s, i, p) == s;
        PassKeepsModule(env, s, i, n + 1, k, j, m);
      } else {
        TakenStays(s, i, FirstEligible(Cur(p), node), n);
        PassKeepsModule(env, Taken(s, i, FirstEligible(Cur(p), node), n), i, n + 1, k, j, m);
      }
    }
  }

  /** A node the loop hands out went to a process before which every other one has nothing
      for it. */
  lemma {:induction false} PassFollowsOrder(env: Env, s: Server, i: nat, n: nat, m: nat)
    requires NoneDone(s) && i <= |s.processes| && DeclinedUpTo(env, s, i, n)
    requires Free(s.nodes, m) && !Free(Pass(env, s, i, n).s.nodes, m)
    ensures WentInOrder(env, s.nodes[m].value, Pass(env, s, i, n).s, m)
    decreases |s.processes| - i, |s.nodes| - n
  {
    hide DeclinedUpTo, Offers, GiveJob, WentInOrder;
    if i >= |s.processes| {
    } else if n >= |s.nodes| {
      AllDeclined(env, s, i, n);
      PassFollowsOrder(env, s, i + 1, 0, m);
    } else if !Free(s.nodes, n) {
      DeclinedNext(env, s, i, n);
      PassFollowsOrder(env, s, i, n + 1, m);
    } else {
      var p, node := s.processes[i], s.nodes[n].value;
      if !Offers(env, p, node) {
        DeclinedNext(env, s, i, n);
        AskDeclined(env, s, i, n);
        PassFollowsOrder(env, s, i, n + 1, m);
      } else {
        var j := FirstEligible(Cur(p), node);
        AskTaken(env, s, i, n);
        var t := Taken(s, i, j, n);
        TakenAdvances(env, s, i, j, n);
        if m == n {
          TakenWentInOrder(env, s, i, j, n);
        } else {
          PassFollowsOrder(env, t, i, n + 1, m);
        }
      }
    }
  }

  lemma TakenWentInOrder(env: Env, s: Server, i: nat, j: nat, n: nat)
    requires NoneDone(s) && i < |s.processes| && Free(s.nodes, n) && DeclinedUpTo(env, s, i, n)
    requires j == FirstEligible(Cur(s.processes[i]), s.nodes[n].value) && Offers(env, s.processes[i], s.nodes[n].value)
    ensures WentInOrder(env, s.nodes[n].value, Pass(env, Taken(s, i, j, n), i, n + 1).s, n)
  {
    var t := Taken(s, i, j, n);
    var r := Pass(env, t, i, n + 1).s;
    TakenAdvances(env, s, i, j, n);
    PassIsGreedy(env, t, i, n + 1);
    assert StartedAt(t, i, j, n);
    PassKeepsModule(env, t, i, n + 1, i, j, n);
    assert r.nodes[n] == t.nodes[n];
    forall l | 0 <= l < i ensures !Offers(env, r.processes[l], s.nodes[n].value) { assert Declines(env, s, l, n); }
  }

  /** When no stage is finished at entry, the queue loop leaves no free node with a job
      waiting for it in any process, and a node that was taken went to the first process in
      the queue that had a job for it. */
  lemma QueueIsGreedyAndOrdered(env: Env, s: Server)
    requires NoneDone(s)
    ensures var r := CheckQueue(env, s);
            && !r.strayed
            && (forall k, m :: 0 <= k < |r.s.processes| && Free(r.s.nodes, m) ==>
                !Offers(env, r.s.processes[k], r.s.nodes[m].value))
            && (forall m :: Free(s.nodes, m) && !Free(r.s.nodes, m) ==> WentInOrder(env, s.nodes[m].value, r.s, m))
            && (forall m :: 0 <= m < |s.nodes| && !Free(s.nodes, m) ==> r.s.nodes[m] == s.nodes[m])
  {
    PassIsGreedy(env, s, 0, 0);
    var r := CheckQueue(env, s);
    forall k, m | 0 <= k < |r.s.processes| && Free(r.s.nodes, m)
      ensures !Offers(env, r.s.processes[k], r.s.nodes[m].value)
    {
      assert Declines(env, r.s, k, m);
    }
    forall m | Free(s.nodes, m) && !Free(r.s.nodes, m) ensures WentInOrder(env, s.nodes[m].value, r.s, m) {
      PassFollowsOrder(env, s, 0, 0, m);
    }
  }
}
