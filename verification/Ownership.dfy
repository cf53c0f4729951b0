/** Exclusive ownership of nodes, kept by every step of the server. */
module Ownership {
  import opened Wrappers
  import opened Entities
  import opened ProcessSteps
  import opened ServerSteps

  // ---- the invariant ----------------------------------------------------------------

  /** Only assigned modules name a node while they wait to run or run. */
  predicate Sound(m: StageModule) {
    (m.status.Wait? ==> m.node == -1) && (Active(m) ==> m.node >= 0)
  }

  /** No module of the stage runs or is being stopped. */
  predicate Quiet(st: Stage) {
    forall j :: 0 <= j < |st| ==> Sound(st[j]) && !Active(st[j])
  }

  /** No two modules of the stage share a node. */
  predicate Exclusive(st: Stage) {
    && (forall j :: 0 <= j < |st| ==> Sound(st[j]))
    && (forall j, k :: 0 <= j < k < |st| && Active(st[j]) && Active(st[k]) ==> st[j].node != st[k].node)
  }

  /** Outside the current stage nothing runs, and every stage from the first one up to
      the current one is over. */
  predicate Orderly(p: Process) {
    && p.current < |p.stages|
    && Exclusive(p.stages[p.current])
    && (forall k :: 0 <= k < |p.stages| && k != p.current ==> Quiet(p.stages[k]))
    && (forall k :: p.start <= k < p.current ==> StageDone(p.stages[k]))
  }

  /** The node a module of process `pid` names works for it: a running module's node is
      live, a module being stopped may have lost its node. */
  predicate Held(m: StageModule, pid: int, nodes: seq<Option<Node>>) {
    && 0 <= m.node < |nodes|
    && (m.status.Started? ==> nodes[m.node].Some?)
    && (nodes[m.node].Some? ==>
          var node := nodes[m.node].value;
          node.busy && node.stopping == m.status.Stopping? && node.processId == pid && node.running == m.name)
  }

  predicate Linked(p: Process, nodes: seq<Option<Node>>)
    requires p.current < |p.stages| && Exclusive(Cur(p))
  {
    forall j :: 0 <= j < |Cur(p)| && Active(Cur(p)[j]) ==> Held(Cur(p)[j], p.id, nodes)
  }

  /** Some module of the process runs on node `n`. */
  predicate RunsOn(p: Process, n: int) {
    p.current < |p.stages| &&
    exists j :: 0 <= j < |Cur(p)| && Cur(p)[j].status.Started? && Cur(p)[j].node == n
  }

  /** No module of the process names node `n` as its own. */
  predicate Claimless(p: Process, n: int) {
    p.current < |p.stages| &&
    forall j :: 0 <= j < |Cur(p)| && Active(Cur(p)[j]) ==> Cur(p)[j].node != n
  }

  predicate Leased(ps: seq<Process>, pid: int, n: int) {
    exists i :: 0 <= i < |ps| && ps[i].id == pid && RunsOn(ps[i], n)
  }

  predicate NodeSettled(s: Server, n: int)
    requires Live(s.nodes, n)
  {
    var node := s.nodes[n].value;
    && (!node.busy ==> node == Idle(node))
    && (node.busy ==> 0 <= node.processId < s.counter)
    && (node.busy && !node.stopping ==> Leased(s.processes, node.processId, n))
  }

  /** Node `x` is between the report about its module and clearNodeState: still busy, but
      no module names it any more. */
  predicate InHandoff(s: Server, x: int) {
    && Live(s.nodes, x)
    && s.nodes[x].value.busy
    && forall i :: 0 <= i < |s.processes| ==> Claimless(s.processes[i], x)
  }

  predicate Registered(s: Server) {
    && 0 <= s.counter
    && (forall i :: 0 <= i < |s.processes| ==> 0 <= s.processes[i].id < s.counter)
    && (forall i, k :: 0 <= i < k < |s.processes| ==> s.processes[i].id != s.processes[k].id)
  }

  predicate ProcessesSettled(s: Server) {
    forall i :: 0 <= i < |s.processes| ==>
      Orderly(s.processes[i]) && Linked(s.processes[i], s.nodes)
  }

  /** A completed process was in its last stage, with everything over. */
  predicate Complete(p: Process) {
    && p.current == |p.stages| - 1
    && StageDone(p.stages[p.current])
    && (forall k :: p.start <= k < p.current ==> StageDone(p.stages[k]))
  }

  /** The invariant while node `x` is handed over; -1 when no node is. */
  predicate Owned(s: Server, x: int) {
    && Registered(s)
    && ProcessesSettled(s)
    && (forall n :: 0 <= n < |s.nodes| && n != x && s.nodes[n].Some? ==> NodeSettled(s, n))
    && (x != -1 ==> InHandoff(s, x))
    && (forall k :: 0 <= k < |s.finished| ==> Complete(s.finished[k]))
  }

  // ---- changing one process ---------------------------------------------------------

  /** Replacing a process keeps the invariant when its running modules stay where they
      are and it claims no other node. */
  lemma ReplaceKeeps(s: Server, x: int, i: nat, q: Process)
    requires Owned(s, x) && i < |s.processes|
    requires q.id == s.processes[i].id && Orderly(q) && Linked(q, s.nodes)
    requires x != -1 ==> Claimless(q, x)
    requires forall n :: 0 <= n < |s.nodes| && RunsOn(s.processes[i], n) ==> RunsOn(q, n)
    ensures Owned(SetProcess(s, i, q), x)
  {
    var t := SetProcess(s, i, q);
    forall n | 0 <= n < |t.nodes| && n != x && t.nodes[n].Some?
      ensures NodeSettled(t, n)
    {
      var node := t.nodes[n].value;
      assert NodeSettled(s, n);
      if node.busy && !node.stopping {
        var k :| 0 <= k < |s.processes| && s.processes[k].id == node.processId && RunsOn(s.processes[k], n);
        assert t.processes[k].id == node.processId && RunsOn(t.processes[k], n);
      }
    }
  }

  /** A process that runs nothing can leave the queue. */
  lemma RetireKeeps(s: Server, x: int, i: nat, p: Process)
    requires Owned(s, x) && i < |s.processes|
    requires forall n :: 0 <= n < |s.nodes| ==> !RunsOn(s.processes[i], n) || n == x
    requires Complete(p)
    ensures Owned(Retire(s, i, p), x)
  {
    var t := Retire(s, i, p);
    RemoveKeeps(s, t, x, i);
  }

  lemma RemoveKeeps(s: Server, t: Server, x: int, i: nat)
    requires Owned(s, x) && i < |s.processes|
    requires forall n :: 0 <= n < |s.nodes| ==> !RunsOn(s.processes[i], n) || n == x
    requires t == s.(processes := RemoveAt(s.processes, i), finished := t.finished)
    requires forall k :: 0 <= k < |t.finished| ==> Complete(t.finished[k])
    ensures Owned(t, x)
  {
    forall n | 0 <= n < |t.nodes| && n != x && t.nodes[n].Some?
      ensures NodeSettled(t, n)
    {
      var node := t.nodes[n].value;
      assert NodeSettled(s, n);
      if node.busy && !node.stopping {
        var k :| 0 <= k < |s.processes| && s.processes[k].id == node.processId && RunsOn(s.processes[k], n);
        assert k != i;
        var k' := if k < i then k else k - 1;
        assert t.processes[k'] == s.processes[k];
      }
    }
  }

  // ---- stages -----------------------------------------------------------------------

  lemma {:induction false} RebuildStageQuiet(env: Env, pid: int, st: Stage, k: nat)
    requires k <= |st|
    requires Exclusive(st)
    ensures var r := RebuildFrom(env, pid, st, k);
            Exclusive(r) && (Quiet(st) ==> Quiet(r))
    decreases CountUnexpanded(st[k..]), |st| - k
  {
    if k < |st| {
      if Unexpanded(st[k]) {
        var size := ListSize(env, pid, st[k].name);
        if size != 0 {
          var tail := Instances(st[k], 1, size);
          ExpansionShrinks(st, k, tail);
          RebuildStageQuiet(env, pid, st[k := st[k].(elem := 0)] + tail, k);
        }
      } else {
        assert st[k..][1..] == st[k + 1..];
        RebuildStageQuiet(env, pid, st, k + 1);
      }
    }
  }

  /** A stage that is over runs nothing. */
  lemma DoneRunsNothing(p: Process, n: int)
    requires p.current < |p.stages| && StageDone(Cur(p))
    ensures !RunsOn(p, n) && Claimless(p, n)
  {
  }

  /** Moving on to the next stage, or completing, keeps the invariant. */
  lemma CheckStageKeeps(env: Env, s: Server, x: int, i: nat)
    requires Owned(s, x) && i < |s.processes|
    ensures match CheckStage(env, s.processes[i])
            case Goes(q) => q.id == s.processes[i].id && Owned(SetProcess(s, i, q), x)
            case Completes => Owned(Retire(s, i, s.processes[i]), x)
  {
    var p := s.processes[i];
    if StageDone(Cur(p)) {
      forall n ensures !RunsOn(p, n) { DoneRunsNothing(p, n); }
      if p.current == |p.stages| - 1 {
        RetireKeeps(s, x, i, p);
      } else {
        var q := Rebuild(env, p.(current := p.current + 1));
        RebuildStageQuiet(env, p.id, p.stages[p.current + 1], 0);
        assert Orderly(q) by {
          forall k | q.start <= k < q.current ensures StageDone(q.stages[k]) { assert q.stages[k] == p.stages[k]; }
          forall k | 0 <= k < |q.stages| && k != q.current
            ensures Quiet(q.stages[k])
          {
            assert q.stages[k] == p.stages[k];
          }
        }
        ReplaceKeeps(s, x, i, q);
      }
    } else {
      assert SetProcess(s, i, p) == s;
    }
  }

  // ---- the queue loop ---------------------------------------------------------------

  /** The server after module `j` of process `i` was started on node `n`. */
  function Assigned(s: Server, i: nat, j: nat, n: nat): Server
    requires i < |s.processes| && s.processes[i].current < |s.processes[i].stages| && Live(s.nodes, n)
    requires j < |Cur(s.processes[i])|
  {
    var p := s.processes[i];
    var q := WithCur(p, StartModule(Cur(p), j, n));
    SetNode(SetProcess(s, i, q), n, Occupied(s.nodes[n].value, q.id, Cur(p)[j].name))
  }

  lemma AssignedLinked(s: Server, x: int, i: nat, j: nat, n: nat, k: nat)
    requires Owned(s, x) && i < |s.processes| && Free(s.nodes, n) && k < |s.processes|
    requires j < |Cur(s.processes[i])| && Cur(s.processes[i])[j].status.Wait?
    ensures var t := Assigned(s, i, j, n);
            Orderly(t.processes[k]) && Linked(t.processes[k], t.nodes) && (x != -1 ==> Claimless(t.processes[k], x))
  {
    var p := s.processes[k];
    assert Linked(p, s.nodes) && Claimless(p, n);
    if k == i {
      var q := Assigned(s, i, j, n).processes[i];
      assert forall l :: 0 <= l < |q.stages| && l != q.current ==> q.stages[l] == p.stages[l];
    }
  }

  lemma AssignedSettled(s: Server, x: int, i: nat, j: nat, n: nat, m: nat)
    requires Owned(s, x) && i < |s.processes| && Free(s.nodes, n) && m != x && Live(s.nodes, m)
    requires j < |Cur(s.processes[i])| && Cur(s.processes[i])[j].status.Wait?
    ensures NodeSettled(Assigned(s, i, j, n), m)
  {
    var t := Assigned(s, i, j, n);
    var p, q := s.processes[i], t.processes[i];
    assert NodeSettled(s, m);
    var node := t.nodes[m].value;
    if m == n {
      assert Cur(q)[j].status.Started? && Cur(q)[j].node == n;
      assert RunsOn(t.processes[i], n);
      assert Leased(t.processes, p.id, n);
    } else if node.busy && !node.stopping {
      var k :| 0 <= k < |s.processes| && s.processes[k].id == node.processId && RunsOn(s.processes[k], m);
      if k == i {
        var l :| 0 <= l < |Cur(p)| && Cur(p)[l].status.Started? && Cur(p)[l].node == m;
        assert Cur(q)[l] == Cur(p)[l];
      }
      assert RunsOn(t.processes[k], m);
    }
  }

  /** Starting a waiting module on a free node keeps the invariant. */
  lemma AssignKeeps(s: Server, x: int, i: nat, j: nat, n: nat)
    requires Owned(s, x) && i < |s.processes| && Free(s.nodes, n)
    requires j < |Cur(s.processes[i])| && Cur(s.processes[i])[j].status.Wait?
    ensures var p := s.processes[i];
            var q := WithCur(p, StartModule(Cur(p), j, n));
            Owned(SetNode(SetProcess(s, i, q), n, Occupied(s.nodes[n].value, q.id, Cur(p)[j].name)), x)
  {
    hide NodeSettled, Linked, Claimless;
    var t := Assigned(s, i, j, n);
    forall k | 0 <= k < |t.processes|
      ensures Orderly(t.processes[k]) && Linked(t.processes[k], t.nodes) && (x != -1 ==> Claimless(t.processes[k], x))
    {
      AssignedLinked(s, x, i, j, n, k);
    }
    forall m | 0 <= m < |t.nodes| && m != x && t.nodes[m].Some? ensures NodeSettled(t, m) {
      AssignedSettled(s, x, i, j, n, m);
    }
  }

  lemma AskKeeps(env: Env, s: Server, x: int, i: nat, n: nat)
    requires Owned(s, x) && i < |s.processes| && Free(s.nodes, n)
    ensures Owned(Ask(env, s, i, n), x)
  {
    CheckStageKeeps(env, s, x, i);
    match GiveJob(env, s.processes[i], n, s.nodes[n].value)
    case Gives(q', name) =>
      var q := CheckStage(env, s.processes[i]).p;
      AssignKeeps(SetProcess(s, i, q), x, i, FirstEligible(Cur(q), s.nodes[n].value), n);
      assert SetProcess(SetProcess(s, i, q), i, q') == SetProcess(s, i, q');
    case Refuses(q) =>
    case Ends =>
  }

  lemma PassKeeps(env: Env, s: Server, x: int, i: nat, n: nat)
    requires Owned(s, x)
    ensures Owned(Pass(env, s, i, n).s, x)
  {
    var R := (t: Server, u: Server) => Owned(t, x) ==> Owned(u, x);
    forall t, k: nat, m: nat ensures AskRelates(env, R, t, k, m) {
      if Owned(t, x) && k < |t.processes| && Free(t.nodes, m) { AskKeeps(env, t, x, k, m); }
    }
    PassRelates(env, R, s, i, n);
  }
}
