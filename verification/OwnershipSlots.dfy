/** Every slot keeps the ownership invariant. */
module OwnershipSlots {
  import opened Wrappers
  import opened Entities
  import opened ProcessSteps
  import opened ServerSteps
  import opened Ownership

  // ---- one node and one process -----------------------------------------------------

  /** clearNodeState ends the handover. */
  lemma ClearNodeKeeps(s: Server, x: nat)
    requires Owned(s, x)
    ensures Owned(ClearNode(s, x), -1)
  {
    var t := ClearNode(s, x);
    forall n | 0 <= n < |t.nodes| && t.nodes[n].Some? ensures NodeSettled(t, n) {
      if n != x { assert NodeSettled(s, n); }
    }
    forall k | 0 <= k < |t.processes| ensures Linked(t.processes[k], t.nodes) {
      assert Claimless(s.processes[k], x);
    }
  }

  /** Taking the module of node `n` out of execution starts the handover of `n`. */
  lemma HandoffKeeps(s: Server, n: nat, i: nat, st: Stage)
    requires Owned(s, -1) && i < |s.processes|
    requires Live(s.nodes, n) && s.nodes[n].value.busy
    requires forall k :: 0 <= k < |s.processes| && k != i ==> s.processes[k].id != s.nodes[n].value.processId
    requires var old_ := Cur(s.processes[i]);
             |st| == |old_| &&
             forall j :: 0 <= j < |st| ==>
               if Active(old_[j]) && old_[j].node == n then Sound(st[j]) && !Active(st[j])
               else st[j] == old_[j]
    ensures Owned(SetProcess(s, i, WithCur(s.processes[i], st)), n)
  {
    var p := s.processes[i];
    var q := WithCur(p, st);
    var t := SetProcess(s, i, q);
    assert Orderly(q) by {
      forall k | q.start <= k < q.current ensures StageDone(q.stages[k]) { assert q.stages[k] == p.stages[k]; }
      forall k | 0 <= k < |q.stages| && k != q.current ensures Quiet(q.stages[k]) { assert q.stages[k] == p.stages[k]; }
    }
    assert InHandoff(t, n) by {
      forall k | 0 <= k < |t.processes| ensures Claimless(t.processes[k], n) {
        if k != i { assert Linked(s.processes[k], s.nodes); }
      }
    }
    forall m | 0 <= m < |t.nodes| && m != n && t.nodes[m].Some? ensures NodeSettled(t, m) {
      var node := t.nodes[m].value;
      assert NodeSettled(s, m);
      if node.busy && !node.stopping {
        var k :| 0 <= k < |s.processes| && s.processes[k].id == node.processId && RunsOn(s.processes[k], m);
        if k == i {
          var j :| 0 <= j < |Cur(p)| && Cur(p)[j].status.Started? && Cur(p)[j].node == m;
          assert Cur(q)[j] == Cur(p)[j];
        }
        assert RunsOn(t.processes[k], m);
      }
    }
  }

  /** A busy node that names no listed process can be freed. */
  lemma UnaddressedHandoff(s: Server, n: nat)
    requires Owned(s, -1) && Live(s.nodes, n) && s.nodes[n].value.busy
    requires !Addressed(s, n)
    ensures Owned(s, n)
  {
    forall k | 0 <= k < |s.processes| ensures Claimless(s.processes[k], n) {
      assert Linked(s.processes[k], s.nodes);
    }
  }

  lemma AddresseeIsUnique(s: Server, n: nat)
    requires Owned(s, -1) && Addressed(s, n)
    ensures s.nodes[n].value.busy
    ensures forall k :: 0 <= k < |s.processes| && k != Addressee(s, n) ==>
      s.processes[k].id != s.nodes[n].value.processId
  {
    assert NodeSettled(s, n);
  }

  /** The set of modules a node offers has no part in ownership. */
  lemma ModulesKeep(s: Server, t: Server, x: int)
    requires Owned(s, x)
    requires t == s.(nodes := t.nodes) && |t.nodes| == |s.nodes|
    requires forall n :: 0 <= n < |s.nodes| ==>
               if s.nodes[n].Some?
               then t.nodes[n].Some? && t.nodes[n].value == s.nodes[n].value.(modules := t.nodes[n].value.modules)
               else t.nodes[n] == s.nodes[n]
    ensures Owned(t, x)
  {
    forall n | 0 <= n < |t.nodes| && n != x && t.nodes[n].Some? ensures NodeSettled(t, n) {
      assert NodeSettled(s, n);
    }
  }

  // ---- reports ----------------------------------------------------------------------

  /** The process that a report from node `n` reaches has no module on it: it was rewound, or
      the report came before. */
  predicate Unclaimed(s: Server, n: nat)
    requires Addressed(s, n)
  {
    Claimless(s.processes[Addressee(s, n)], n)
  }

  /** The reports that keep ownership.  A failed end report has code 0 or 2; a failed file
      transfer does not reach a stopping node whose module still waits for the stop reply; a
      stop reply names the module of its node. */
  predicate Regular(s: Server, e: Event) {
    match e
    case EndFailed(n, name, code) => Addressed(s, n) ==> code == OUTPUT_MISSING || code == MAX_TIME_REACHED
    case PrepareFailed(n, name, code) => Addressed(s, n) ==> !s.nodes[n].value.stopping || Unclaimed(s, n)
    case StopReply(n, name, success) => Addressed(s, n) ==> s.nodes[n].value.running == name || Unclaimed(s, n)
    case _ => true
  }

  lemma CreditHandoff(s: Server, n: nat, name: string, to: Status)
    requires Owned(s, -1) && Addressed(s, n)
    requires s.nodes[n].value.running == name || Unclaimed(s, n)
    requires to.Done? || to.Stoped?
    ensures var i := Addressee(s, n);
            Owned(SetProcess(s, i, Credit(s.processes[i], n, name, to)), n)
  {
    AddresseeIsUnique(s, n);
    var i := Addressee(s, n);
    assert Linked(s.processes[i], s.nodes);
    HandoffKeeps(s, n, i, CreditStage(Cur(s.processes[i]), n, name, to));
  }

  lemma ClearJobHandoff(s: Server, n: nat)
    requires Owned(s, -1) && Addressed(s, n)
    requires !s.nodes[n].value.stopping || Unclaimed(s, n)
    ensures var i := Addressee(s, n);
            Owned(SetProcess(s, i, ClearJob(s.processes[i], n)), n)
  {
    AddresseeIsUnique(s, n);
    var i := Addressee(s, n);
    assert Linked(s.processes[i], s.nodes);
    HandoffKeeps(s, n, i, ClearStage(Cur(s.processes[i]), n));
  }

  lemma SettleKeeps(env: Env, s: Server, x: int, i: nat, p: Process)
    requires i < |s.processes| && p.current < |p.stages|
    requires Staged(s) && Owned(SetProcess(s, i, p), x)
    ensures Owned(Settle(env, s, i, p).s, x)
  {
    var t := SetProcess(s, i, p);
    CheckStageKeeps(env, t, x, i);
    match CheckStage(env, p)
    case Goes(q) => assert SetProcess(t, i, q) == SetProcess(s, i, q);
    case Completes =>
      assert Retire(t, i, p) == Retire(s, i, p);
      PassKeeps(env, Retire(s, i, p), x, 0, 0);
  }

  lemma BounceKeeps(env: Env, s: Server, n: nat, name: string)
    requires Owned(s, -1) && Addressed(s, n)
    requires !s.nodes[n].value.stopping || Unclaimed(s, n)
    ensures Owned(Bounce(env, s, n, name).s, -1)
  {
    var i := Addressee(s, n);
    ClearJobHandoff(s, n);
    var t := SetProcess(s, i, ClearJob(s.processes[i], n));
    ModulesKeep(t, AddFailed(t, n, name), n);
    ClearNodeKeeps(AddFailed(t, n, name), n);
    PassKeeps(env, ClearNode(AddFailed(t, n, name), n), -1, 0, 0);
  }

  /** A failed preparation, with any code. */
  lemma PreparationKeeps(env: Env, s: Server, n: nat, name: string, code: int)
    requires Owned(s, -1) && Regular(s, PrepareFailed(n, name, code))
    ensures Owned(PrepareFailedSlot(env, s, n, name, code).s, -1)
  {
    if Addressed(s, n) {
      if code == MD5_DIFFERS {
        ClearJobHandoff(s, n);
        var i := Addressee(s, n);
        ClearNodeKeeps(SetProcess(s, i, ClearJob(s.processes[i], n)), n);
      } else {
        BounceKeeps(env, s, n, name);
      }
    }
  }

  lemma CloseKeeps(env: Env, s: Server, n: nat, name: string, to: Status)
    requires Owned(s, -1) && Addressed(s, n)
    requires s.nodes[n].value.running == name || Unclaimed(s, n)
    requires to.Done? || to.Stoped?
    ensures var r := Close(env, s, n, name, to); r.strayed || Owned(r.s, -1)
  {
    var i := Addressee(s, n);
    CreditHandoff(s, n, name, to);
    SettleKeeps(env, s, n, i, Credit(s.processes[i], n, name, to));
    var r := Settle(env, s, i, Credit(s.processes[i], n, name, to));
    if !r.strayed {
      ClearNodeKeeps(r.s, n);
      PassKeeps(env, ClearNode(r.s, n), -1, 0, 0);
    }
  }

  lemma StopReplyKeeps(env: Env, s: Server, n: nat, name: string, success: bool)
    requires Owned(s, -1) && Regular(s, StopReply(n, name, success))
    ensures var r := StopReplySlot(env, s, n, name, success); r.strayed || Owned(r.s, -1)
  {
    if Live(s.nodes, n) {
      assert NodeSettled(s, n);
      if !Addressed(s, n) {
        if s.nodes[n].value.busy {
          UnaddressedHandoff(s, n);
          ClearNodeKeeps(s, n);
        } else {
          assert ClearNode(s, n) == s;
        }
        PassKeeps(env, ClearNode(s, n), -1, 0, 0);
      } else if success {
        CloseKeeps(env, s, n, name, Done);
      } else {
        var i := Addressee(s, n);
        var p := Credit(s.processes[i], n, name, Done);
        CreditHandoff(s, n, name, Done);
        ClearNodeKeeps(SetProcess(s, i, p), n);
        assert ClearNode(SetProcess(s, i, p), n) == SetProcess(ClearNode(s, n), i, p);
        SettleKeeps(env, ClearNode(s, n), -1, i, p);
        var r := Settle(env, ClearNode(s, n), i, p);
        if !r.strayed { PassKeeps(env, r.s, -1, 0, 0); }
      }
    }
  }

  // ---- nodes and processes coming and going -----------------------------------------

  lemma LostLinked(s: Server, n: nat, k: nat)
    requires Owned(s, -1) && Live(s.nodes, n) && k < |s.processes|
    ensures var t := NodeLostSlot(s, n).s; Orderly(t.processes[k]) && Linked(t.processes[k], t.nodes)
  {
    var p, q := s.processes[k], NodeLostSlot(s, n).s.processes[k];
    assert Linked(p, s.nodes);
    forall l | q.start <= l < q.current ensures StageDone(q.stages[l]) { assert q.stages[l] == p.stages[l]; }
    forall l | 0 <= l < |q.stages| && l != q.current ensures Quiet(q.stages[l]) { assert q.stages[l] == p.stages[l]; }
  }

  lemma ClearedKeepsRunning(p: Process, n: nat, m: nat)
    requires RunsOn(p, m) && m != n
    ensures RunsOn(ClearJob(p, n), m)
  {
    var j :| 0 <= j < |Cur(p)| && Cur(p)[j].status.Started? && Cur(p)[j].node == m;
    assert Cur(ClearJob(p, n))[j] == Cur(p)[j];
  }

  lemma LostSettled(s: Server, n: nat, m: nat)
    requires Owned(s, -1) && Live(s.nodes, n) && m != n && Live(s.nodes, m)
    ensures NodeSettled(NodeLostSlot(s, n).s, m)
  {
    hide RunsOn, Linked, ClearJob;
    var t := NodeLostSlot(s, n).s;
    var node := t.nodes[m].value;
    assert NodeSettled(s, m);
    if node.busy && !node.stopping {
      var k :| 0 <= k < |s.processes| && s.processes[k].id == node.processId && RunsOn(s.processes[k], m);
      ClearedKeepsRunning(s.processes[k], n, m);
      assert t.processes[k] == ClearJob(s.processes[k], n);
      assert RunsOn(t.processes[k], m) && t.processes[k].id == node.processId by { ClearedSameId(s.processes[k], n); }
    }
  }

  lemma ClearedSameId(p: Process, n: nat)
    requires p.current < |p.stages|
    ensures ClearJob(p, n).id == p.id
  {
  }

  lemma NodeLostKeeps(s: Server, n: nat)
    requires Owned(s, -1)
    ensures Owned(NodeLostSlot(s, n).s, -1)
  {
    hide NodeSettled, Linked;
    if Live(s.nodes, n) {
      var t := NodeLostSlot(s, n).s;
      forall k | 0 <= k < |t.processes| ensures Orderly(t.processes[k]) && Linked(t.processes[k], t.nodes) {
        LostLinked(s, n, k);
      }
      forall m | 0 <= m < |t.nodes| && t.nodes[m].Some? ensures NodeSettled(t, m) {
        LostSettled(s, n, m);
      }
    }
  }

  lemma NodeArrivesKeeps(env: Env, s: Server)
    requires Owned(s, -1)
    ensures Owned(Step(env, s, NodeArrives).s, -1)
  {
    var t := Step(env, s, NodeArrives).s;
    forall n | 0 <= n < |t.nodes| && t.nodes[n].Some? ensures NodeSettled(t, n) {
      if n < |s.nodes| { assert NodeSettled(s, n); }
    }
  }

  /** A new process that runs nothing joins the queue. */
  lemma JoinKeeps(s: Server, q: Process)
    requires Owned(s, -1) && Orderly(q) && Quiet(Cur(q)) && q.id == s.counter
    ensures Owned(s.(counter := s.counter + 1, processes := s.processes + [q]), -1)
  {
    var t := s.(counter := s.counter + 1, processes := s.processes + [q]);
    forall n | 0 <= n < |t.nodes| && t.nodes[n].Some? ensures NodeSettled(t, n) {
      var node := t.nodes[n].value;
      assert NodeSettled(s, n);
      if node.busy && !node.stopping {
        var k :| 0 <= k < |s.processes| && s.processes[k].id == node.processId && RunsOn(s.processes[k], n);
        assert t.processes[k] == s.processes[k];
      }
    }
  }

  lemma CounterKeeps(s: Server)
    requires Owned(s, -1)
    ensures Owned(s.(counter := s.counter + 1), -1)
  {
    var u := s.(counter := s.counter + 1);
    forall n | 0 <= n < |u.nodes| && u.nodes[n].Some? ensures NodeSettled(u, n) { assert NodeSettled(s, n); }
  }

  lemma PlanIsOrderly(env: Env, p: Process)
    requires p.start == p.current < |p.stages| && FreshPlan(p.stages)
    ensures var q := Rebuild(env, p); Orderly(q) && Quiet(Cur(q)) && q.id == p.id
  {
    RebuildStageQuiet(env, p.id, Cur(p), 0);
    var q := Rebuild(env, p);
    assert forall k :: 0 <= k < |p.stages| && k != p.current ==> q.stages[k] == p.stages[k];
  }

  lemma ProcessArrivesKeeps(env: Env, s: Server, stages: seq<Stage>, start: nat)
    requires Owned(s, -1) && Enabled(s, ProcessArrives(stages, start))
    ensures Owned(ProcessArrivesSlot(env, s, stages, start).s, -1)
  {
    var p := Process(s.counter, stages, start, start);
    var q := Rebuild(env, p);
    PlanIsOrderly(env, p);
    JoinKeeps(s, q);
    var t := s.(counter := s.counter + 1, processes := s.processes + [q]);
    CheckStageKeeps(env, t, -1, |s.processes|);
    match CheckStage(env, q)
    case Completes => CounterKeeps(s);
    case Goes(q') =>
      var u := s.(counter := s.counter + 1, processes := s.processes + [q']);
      assert u == SetProcess(t, |s.processes|, q');
      PassKeeps(env, u, -1, 0, 0);
  }

  // ---- signals to nodes -------------------------------------------------------------

  predicate StartedOn(st: Stage, n: int) {
    exists j :: 0 <= j < |st| && st[j].status.Started? && st[j].node == n
  }

  predicate StopSelectedOn(st: Stage, sel: Selector, n: int) {
    exists j :: 0 <= j < |st| && Selected(st[j], sel) && st[j].status.Started? && st[j].node == n
  }

  lemma {:induction false} FreeSignalsExact(st: Stage, n: int)
    ensures n in FreeSignals(st) <==> StartedOn(st, n)
  {
    if st != [] {
      var rest := st[..|st| - 1];
      FreeSignalsExact(rest, n);
      if StartedOn(rest, n) {
        var j :| 0 <= j < |rest| && rest[j].status.Started? && rest[j].node == n;
        assert st[j] == rest[j];
      }
      if StartedOn(st, n) {
        var j :| 0 <= j < |st| && st[j].status.Started? && st[j].node == n;
        if j < |rest| { assert rest[j] == st[j]; }
      }
    }
  }

  lemma {:induction false} FreeSignalsOfExact(stages: seq<Stage>, first: nat, end: nat, n: int)
    requires first <= end <= |stages|
    ensures n in FreeSignalsOf(stages, first, end) <==> exists k :: first <= k < end && StartedOn(stages[k], n)
    decreases end
  {
    if first < end {
      FreeSignalsOfExact(stages, first, end - 1, n);
      FreeSignalsExact(stages[end - 1], n);
    }
  }

  lemma {:induction false} StopSignalsExact(st: Stage, sel: Selector, n: int)
    ensures n in StopSignals(st, sel) <==> StopSelectedOn(st, sel, n)
  {
    if st != [] {
      var rest := st[..|st| - 1];
      StopSignalsExact(rest, sel, n);
      if StopSelectedOn(rest, sel, n) {
        var j :| 0 <= j < |rest| && Selected(rest[j], sel) && rest[j].status.Started? && rest[j].node == n;
        assert st[j] == rest[j];
      }
      if StopSelectedOn(st, sel, n) {
        var j :| 0 <= j < |st| && Selected(st[j], sel) && st[j].status.Started? && st[j].node == n;
        if j < |rest| { assert rest[j] == st[j]; }
      }
    }
  }

  lemma {:induction false} FreeNodesAt(nodes: seq<Option<Node>>, ns: seq<int>, m: nat)
    requires m < |nodes|
    ensures FreeNodes(nodes, ns)[m] ==
            if m in ns && nodes[m].Some? && nodes[m].value.busy
            then Some(nodes[m].value.(stopping := true)) else nodes[m]
  {
    if ns != [] {
      FreeNodesAt(nodes, ns[..|ns| - 1], m);
      assert m in ns <==> m in ns[..|ns| - 1] || m == ns[|ns| - 1];
    }
  }

  lemma {:induction false} StopNodesAt(nodes: seq<Option<Node>>, ps: seq<Process>, ns: seq<int>, m: nat)
    requires m < |nodes|
    ensures StopNodes(nodes, ps, ns)[m] ==
            if m in ns && nodes[m].Some? && FindProcess(ps, nodes[m].value.processId) < |ps|
            then Some(nodes[m].value.(stopping := true)) else nodes[m]
  {
    if ns != [] {
      StopNodesAt(nodes, ps, ns[..|ns| - 1], m);
      assert m in ns <==> m in ns[..|ns| - 1] || m == ns[|ns| - 1];
    }
  }

  /** Nodes running a process are told to stop; the process itself may then leave or be
      rewound. */
  predicate FreedFor(s: Server, i: nat, nodes: seq<Option<Node>>)
    requires i < |s.processes|
  {
    |nodes| == |s.nodes| &&
    forall m :: 0 <= m < |nodes| ==>
      nodes[m] == if RunsOn(s.processes[i], m) && s.nodes[m].Some?
                  then Some(s.nodes[m].value.(stopping := true)) else s.nodes[m]
  }

  lemma RunningNodeIsHeld(s: Server, i: nat, m: nat)
    requires Owned(s, -1) && i < |s.processes| && m < |s.nodes| && RunsOn(s.processes[i], m)
    ensures s.nodes[m].Some? && s.nodes[m].value.busy && s.nodes[m].value.processId == s.processes[i].id
  {
    assert Linked(s.processes[i], s.nodes);
  }

  lemma FreedOthersLinked(s: Server, i: nat, k: nat, nodes: seq<Option<Node>>)
    requires Owned(s, -1) && i < |s.processes| && k < |s.processes| && k != i && FreedFor(s, i, nodes)
    ensures Linked(s.processes[k], nodes)
  {
    var p := s.processes[k];
    assert Linked(p, s.nodes);
    forall j | 0 <= j < |Cur(p)| && Active(Cur(p)[j]) ensures Held(Cur(p)[j], p.id, nodes) {
      var m := Cur(p)[j].node;
      if RunsOn(s.processes[i], m) { RunningNodeIsHeld(s, i, m); }
    }
  }

  lemma FreedNodeSettled(s: Server, i: nat, nodes: seq<Option<Node>>, t: Server, n: nat)
    requires Owned(s, -1) && i < |s.processes| && FreedFor(s, i, nodes)
    requires t.nodes == nodes && t.counter == s.counter && n < |nodes| && nodes[n].Some?
    requires forall k :: 0 <= k < |s.processes| && k != i ==> s.processes[k] in t.processes
    ensures NodeSettled(t, n)
  {
    assert NodeSettled(s, n);
    var node := nodes[n].value;
    if RunsOn(s.processes[i], n) {
      RunningNodeIsHeld(s, i, n);
    } else if node.busy && !node.stopping {
      var k :| 0 <= k < |s.processes| && s.processes[k].id == node.processId && RunsOn(s.processes[k], n);
      var k' :| 0 <= k' < |t.processes| && t.processes[k'] == s.processes[k];
      assert Leased(t.processes, node.processId, n);
    }
  }

  lemma ProcessStoppedKeeps(env: Env, s: Server, pid: int)
    requires Owned(s, -1)
    ensures Owned(ProcessStoppedSlot(env, s, pid).s, -1)
  {
    var i := FindProcess(s.processes, pid);
    if i < |s.processes| {
      var p := s.processes[i];
      var nodes := FreeNodes(s.nodes, FreeSignals(Cur(p)));
      forall m | 0 <= m < |nodes|
        ensures nodes[m] == if RunsOn(p, m) && s.nodes[m].Some?
                            then Some(s.nodes[m].value.(stopping := true)) else s.nodes[m]
      {
        FreeNodesAt(s.nodes, FreeSignals(Cur(p)), m);
        FreeSignalsExact(Cur(p), m);
        if RunsOn(p, m) { RunningNodeIsHeld(s, i, m); }
      }
      var t := s.(processes := RemoveAt(s.processes, i), nodes := nodes);
      forall k | 0 <= k < |s.processes| && k != i ensures s.processes[k] in t.processes {
        assert t.processes[if k < i then k else k - 1] == s.processes[k];
      }
      forall k | 0 <= k < |t.processes| ensures Orderly(t.processes[k]) && Linked(t.processes[k], t.nodes) {
        FreedOthersLinked(s, i, if k < i then k else k + 1, nodes);
      }
      forall n | 0 <= n < |nodes| && nodes[n].Some? ensures NodeSettled(t, n) {
        FreedNodeSettled(s, i, nodes, t, n);
      }
      PassKeeps(env, t, -1, 0, 0);
    }
  }

  lemma StartedOnlyInCurrent(p: Process, k: nat, m: int)
    requires Orderly(p) && k < |p.stages| && StartedOn(p.stages[k], m)
    ensures k == p.current && RunsOn(p, m)
  {
    var j :| 0 <= j < |p.stages[k]| && p.stages[k][j].status.Started? && p.stages[k][j].node == m;
    assert k != p.current ==> !Active(p.stages[k][j]);
    assert Cur(p)[j].status.Started?;
  }

  lemma RewoundIsOrderly(env: Env, p: Process, stage: nat)
    requires Orderly(p) && stage <= p.current
    ensures var q := Rebuild(env, Rewind(p, stage)); Orderly(q) && Quiet(Cur(q)) && q.id == p.id
  {
    var r := Rewind(p, stage);
    RebuildStageQuiet(env, p.id, r.stages[stage], 0);
    var q := Rebuild(env, r);
    forall k | 0 <= k < |q.stages| && k != q.current ensures Quiet(q.stages[k]) {
      assert q.stages[k] == if stage <= k <= p.current then ResetStage(p.stages[k]) else p.stages[k];
    }
    forall k | q.start <= k < q.current ensures StageDone(q.stages[k]) { assert q.stages[k] == p.stages[k]; }
  }

  lemma RewindFrees(s: Server, i: nat, stage: nat)
    requires Owned(s, -1) && i < |s.processes| && stage <= s.processes[i].current
    ensures FreedFor(s, i, FreeNodes(s.nodes, FreeSignalsOf(s.processes[i].stages, stage, s.processes[i].current + 1)))
  {
    var p := s.processes[i];
    var signals := FreeSignalsOf(p.stages, stage, p.current + 1);
    forall m | 0 <= m < |s.nodes|
      ensures FreeNodes(s.nodes, signals)[m] ==
              if RunsOn(p, m) && s.nodes[m].Some? then Some(s.nodes[m].value.(stopping := true)) else s.nodes[m]
    {
      FreeNodesAt(s.nodes, signals, m);
      FreeSignalsOfExact(p.stages, stage, p.current + 1, m);
      if RunsOn(p, m) {
        RunningNodeIsHeld(s, i, m);
        assert StartedOn(p.stages[p.current], m);
      } else {
        forall k | stage <= k < p.current + 1 ensures !StartedOn(p.stages[k], m) {
          if StartedOn(p.stages[k], m) { StartedOnlyInCurrent(p, k, m); }
        }
      }
    }
  }

  lemma StageRequestedKeeps(env: Env, s: Server, pid: int, stage: nat)
    requires Owned(s, -1)
    ensures Owned(StageRequestedSlot(env, s, pid, stage).s, -1)
  {
    hide NodeSettled, Settle;
    var i := FindProcess(s.processes, pid);
    if i < |s.processes| && stage <= s.processes[i].current {
      var p := s.processes[i];
      var nodes := FreeNodes(s.nodes, FreeSignalsOf(p.stages, stage, p.current + 1));
      RewindFrees(s, i, stage);
      var q := Rebuild(env, Rewind(p, stage));
      RewoundIsOrderly(env, p, stage);
      var t := SetProcess(s.(nodes := nodes), i, q);
      forall k | 0 <= k < |s.processes| && k != i ensures s.processes[k] in t.processes {
        assert t.processes[k] == s.processes[k];
      }
      forall k | 0 <= k < |t.processes| ensures Orderly(t.processes[k]) && Linked(t.processes[k], t.nodes) {
        if k != i { FreedOthersLinked(s, i, k, nodes); }
      }
      forall n | 0 <= n < |nodes| && nodes[n].Some? ensures NodeSettled(t, n) {
        FreedNodeSettled(s, i, nodes, t, n);
      }
      SettleKeeps(env, s.(nodes := nodes), -1, i, q);
    }
  }

  /** Nodes running a selected module of process `i` are told to stop. */
  predicate StoppedFor(s: Server, i: nat, sel: Selector, nodes: seq<Option<Node>>)
    requires i < |s.processes| && s.processes[i].current < |s.processes[i].stages|
  {
    |nodes| == |s.nodes| &&
    forall m :: 0 <= m < |nodes| ==>
      if StopSelectedOn(Cur(s.processes[i]), sel, m)
      then s.nodes[m].Some? && nodes[m] == Some(s.nodes[m].value.(stopping := true))
      else nodes[m] == s.nodes[m]
  }

  lemma StopSelectedIsRunning(p: Process, sel: Selector, m: int)
    requires p.current < |p.stages| && StopSelectedOn(Cur(p), sel, m)
    ensures RunsOn(p, m)
  {
  }

  lemma StopReachesNodes(s: Server, i: nat, sel: Selector)
    requires Owned(s, -1) && i < |s.processes|
    ensures StoppedFor(s, i, sel, StopNodes(s.nodes, s.processes, StopSignals(Cur(s.processes[i]), sel)))
  {
    var st := Cur(s.processes[i]);
    forall m | 0 <= m < |s.nodes|
      ensures var nodes := StopNodes(s.nodes, s.processes, StopSignals(st, sel));
              if StopSelectedOn(st, sel, m)
              then s.nodes[m].Some? && nodes[m] == Some(s.nodes[m].value.(stopping := true))
              else nodes[m] == s.nodes[m]
    {
      StopNodesAt(s.nodes, s.processes, StopSignals(st, sel), m);
      StopSignalsExact(st, sel, m);
      if StopSelectedOn(st, sel, m) {
        StopSelectedIsRunning(s.processes[i], sel, m);
        RunningNodeIsHeld(s, i, m);
      }
    }
  }

  /** A module that is not asked to stop is the only active one on its node, so the node
      is not asked to stop either. */
  lemma StopIsPerModule(p: Process, sel: Selector, j: nat)
    requires Orderly(p) && j < |Cur(p)| && Active(Cur(p)[j])
    ensures StopSelectedOn(Cur(p), sel, Cur(p)[j].node) <==> Selected(Cur(p)[j], sel) && Cur(p)[j].status.Started?
  {
    if StopSelectedOn(Cur(p), sel, Cur(p)[j].node) {
      var k :| 0 <= k < |Cur(p)| && Selected(Cur(p)[k], sel) && Cur(p)[k].status.Started? &&
        Cur(p)[k].node == Cur(p)[j].node;
      assert k == j;
    }
  }

  lemma StoppedProcessLinked(s: Server, i: nat, sel: Selector, nodes: seq<Option<Node>>)
    requires Owned(s, -1) && i < |s.processes| && StoppedFor(s, i, sel, nodes)
    ensures var q := StopModules(s.processes[i], sel); Orderly(q) && Linked(q, nodes)
  {
    var p := s.processes[i];
    var q := StopModules(p, sel);
    forall l | q.start <= l < q.current ensures StageDone(q.stages[l]) { assert q.stages[l] == p.stages[l]; }
    forall l | 0 <= l < |q.stages| && l != q.current ensures Quiet(q.stages[l]) { assert q.stages[l] == p.stages[l]; }
    assert Linked(p, s.nodes);
    forall j | 0 <= j < |Cur(q)| && Active(Cur(q)[j]) ensures Held(Cur(q)[j], q.id, nodes) {
      assert Held(Cur(p)[j], p.id, s.nodes);
      StopIsPerModule(p, sel, j);
    }
  }

  lemma StoppedOthersLinked(s: Server, i: nat, k: nat, sel: Selector, nodes: seq<Option<Node>>)
    requires Owned(s, -1) && i < |s.processes| && k < |s.processes| && k != i && StoppedFor(s, i, sel, nodes)
    ensures Linked(s.processes[k], nodes)
  {
    var p := s.processes[k];
    assert Linked(p, s.nodes);
    forall j | 0 <= j < |Cur(p)| && Active(Cur(p)[j]) ensures Held(Cur(p)[j], p.id, nodes) {
      var m := Cur(p)[j].node;
      if StopSelectedOn(Cur(s.processes[i]), sel, m) {
        StopSelectedIsRunning(s.processes[i], sel, m);
        RunningNodeIsHeld(s, i, m);
      }
    }
  }

  lemma StoppedNodeSettled(s: Server, i: nat, sel: Selector, t: Server, n: nat)
    requires Owned(s, -1) && i < |s.processes| && StoppedFor(s, i, sel, t.nodes)
    requires t == SetProcess(s, i, StopModules(s.processes[i], sel)).(nodes := t.nodes)
    requires n < |t.nodes| && t.nodes[n].Some?
    ensures NodeSettled(t, n)
  {
    assert NodeSettled(s, n);
    var p, node := s.processes[i], t.nodes[n].value;
    if StopSelectedOn(Cur(p), sel, n) {
      StopSelectedIsRunning(p, sel, n);
      RunningNodeIsHeld(s, i, n);
    } else if node.busy && !node.stopping {
      var k :| 0 <= k < |s.processes| && s.processes[k].id == node.processId && RunsOn(s.processes[k], n);
      if k == i {
        var j :| 0 <= j < |Cur(p)| && Cur(p)[j].status.Started? && Cur(p)[j].node == n;
        assert Cur(t.processes[i])[j] == Cur(p)[j];
      }
      assert RunsOn(t.processes[k], n);
    }
  }

  lemma StopRequestedKeeps(s: Server, pid: int, sel: Selector)
    requires Owned(s, -1)
    ensures Owned(StopRequestedSlot(s, pid, sel).s, -1)
  {
    var i := FindProcess(s.processes, pid);
    if i < |s.processes| {
      var t := StopRequestedSlot(s, pid, sel).s;
      StopReachesNodes(s, i, sel);
      StoppedProcessLinked(s, i, sel, t.nodes);
      forall k | 0 <= k < |t.processes| ensures Orderly(t.processes[k]) && Linked(t.processes[k], t.nodes) {
        if k != i { StoppedOthersLinked(s, i, k, sel, t.nodes); }
      }
      forall m | 0 <= m < |t.nodes| && t.nodes[m].Some? ensures NodeSettled(t, m) {
        StoppedNodeSettled(s, i, sel, t, m);
      }
    }
  }

  // ---- every step, every run --------------------------------------------------------

  /** Every step of a regular event keeps exclusive ownership. */
  lemma StepKeeps(env: Env, s: Server, e: Event)
    requires Owned(s, -1) && Enabled(s, e) && Regular(s, e)
    ensures var r := Step(env, s, e); r.strayed || Owned(r.s, -1)
  {
    match e
    case NodeArrives => NodeArrivesKeeps(env, s);
    case ModulesListed(n, names) =>
      var t := SetNode(s, n, s.nodes[n].value.(modules := Installed(names)));
      ModulesKeep(s, t, -1);
      PassKeeps(env, t, -1, 0, 0);
    case ModulesDropped(n) => ModulesKeep(s, Step(env, s, e).s, -1);
    case PrepareSucceeded(n, name) =>
    case PrepareFailed(n, name, code) => PreparationKeeps(env, s, n, name, code);
    case StartSucceeded(n, name) =>
    case StartFailed(n, name) => if Addressed(s, n) { BounceKeeps(env, s, n, name); }
    case EndSucceeded(n, name) => if Addressed(s, n) { CloseKeeps(env, s, n, name, Done); }
    case EndFailed(n, name, code) =>
      if Addressed(s, n) {
        if code == OUTPUT_MISSING { BounceKeeps(env, s, n, name); } else { CloseKeeps(env, s, n, name, Stoped); }
      }
    case StopReply(n, name, success) => StopReplyKeeps(env, s, n, name, success);
    case NodeLost(n) => NodeLostKeeps(s, n);
    case FailedCleared => ModulesKeep(s, FailedClearedSlot(s), -1);
    case ProcessArrives(stages, start) => ProcessArrivesKeeps(env, s, stages, start);
    case ProcessStopped(pid) => ProcessStoppedKeeps(env, s, pid);
    case StageRequested(pid, stage) => StageRequestedKeeps(env, s, pid, stage);
    case StopRequested(pid, sel) => StopRequestedKeeps(s, pid, sel);
  }
}
