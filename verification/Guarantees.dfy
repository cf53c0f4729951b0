/** What the ownership invariant means, and exactly which steps keep it. */
module Guarantees {
  import opened Wrappers
  import opened Entities
  import opened ProcessSteps
  import opened ServerSteps
  import opened Ownership
  import opened OwnershipSlots

  predicate ModuleAt(s: Server, i: int, j: int) {
    0 <= i < |s.processes| && s.processes[i].current < |s.processes[i].stages| && 0 <= j < |Cur(s.processes[i])|
  }

  function TheModule(s: Server, i: int, j: int): StageModule
    requires ModuleAt(s, i, j)
  {
    Cur(s.processes[i])[j]
  }

  predicate StartedAt(s: Server, i: int, j: int, n: int) {
    ModuleAt(s, i, j) && TheModule(s, i, j).status.Started? && TheModule(s, i, j).node == n
  }

  /** A module on node `n` runs or is being stopped. */
  predicate ActiveAt(s: Server, i: int, j: int, n: int) {
    ModuleAt(s, i, j) && Active(TheModule(s, i, j)) && TheModule(s, i, j).node == n
  }

  // ---- ownership --------------------------------------------------------------------

  /** A node that is still connected belongs to at most one running or stopping module,
      over all processes. */
  lemma NodeHasOneOwner(s: Server, i: int, j: int, k: int, l: int)
    requires Owned(s, -1) && ModuleAt(s, i, j) && ModuleAt(s, k, l)
    requires Active(TheModule(s, i, j)) && Active(TheModule(s, k, l))
    requires TheModule(s, i, j).node == TheModule(s, k, l).node
    requires Live(s.nodes, TheModule(s, i, j).node)
    ensures i == k && j == l
  {
    assert Linked(s.processes[i], s.nodes) && Linked(s.processes[k], s.nodes);
    assert Held(TheModule(s, i, j), s.processes[i].id, s.nodes);
    assert Held(TheModule(s, k, l), s.processes[k].id, s.nodes);
  }

  /** A node that is busy and not stopping runs exactly one module, of the process it
      names and under the name it was given; a free node runs none. */
  lemma NoNodeLeaks(s: Server, n: nat)
    requires Owned(s, -1) && Live(s.nodes, n)
    ensures var node := s.nodes[n].value;
            if node.busy && !node.stopping then
              exists i, j :: StartedAt(s, i, j, n) && s.processes[i].id == node.processId
                             && TheModule(s, i, j).name == node.running
                             && forall k, l :: StartedAt(s, k, l, n) ==> k == i && l == j
            else forall k, l :: !StartedAt(s, k, l, n)
  {
    var node := s.nodes[n].value;
    assert NodeSettled(s, n);
    forall k, l | StartedAt(s, k, l, n) ensures node.busy && !node.stopping && TheModule(s, k, l).name == node.running {
      assert Linked(s.processes[k], s.nodes);
    }
    if node.busy && !node.stopping {
      var i :| 0 <= i < |s.processes| && s.processes[i].id == node.processId && RunsOn(s.processes[i], n);
      var j :| 0 <= j < |Cur(s.processes[i])| && Cur(s.processes[i])[j].status.Started? &&
        Cur(s.processes[i])[j].node == n;
      assert StartedAt(s, i, j, n);
      forall k, l | StartedAt(s, k, l, n) ensures k == i && l == j { NodeHasOneOwner(s, i, j, k, l); }
    }
  }

  // ---- crediting --------------------------------------------------------------------

  /** An end report the node lets through credits one module and no other: the loop's
      condition holds for exactly one module, and its name is the reported one, so the
      branch for a wrong name is never taken. */
  lemma EndReportCreditsOne(s: Server, n: nat, name: string, to: Status)
    requires Owned(s, -1) && Addressed(s, n) && Enabled(s, EndSucceeded(n, name))
    ensures var st := Cur(s.processes[Addressee(s, n)]);
            exists j :: 0 <= j < |st| && Reported(st[j], n) && st[j].name == name && st[j].status.Started?
                        && CreditStage(st, n, name, to) == st[j := st[j].(status := to)]
                        && forall k :: 0 <= k < |st| && Reported(st[k], n) ==> k == j
  {
    AddresseeIsUnique(s, n);
    var i := Addressee(s, n);
    var st := Cur(s.processes[i]);
    NoNodeLeaks(s, n);
    var i', j :| StartedAt(s, i', j, n) && s.processes[i'].id == s.nodes[n].value.processId;
    assert i' == i;
    assert Linked(s.processes[i], s.nodes);
    forall k | 0 <= k < |st| && Reported(st[k], n) ensures k == j { assert Active(st[k]); }
    assert CreditStage(st, n, name, to) == st[j := st[j].(status := to)];
  }

  /** A stop reply credits the module that claims the node, if it names it, and no other:
      the module being stopped or, when the reply comes late, the one that runs by now.  It
      credits none only when the process claims the node no more, or under another name. */
  lemma StopReplyCreditsAtMostOne(s: Server, n: nat, name: string)
    requires Owned(s, -1) && Addressed(s, n)
    ensures var node, st := s.nodes[n].value, Cur(s.processes[Addressee(s, n)]);
            if Unclaimed(s, n) || name != node.running then CreditStage(st, n, name, Done) == st
            else exists j :: 0 <= j < |st| && st[j].node == n && st[j].name == name
                             && st[j].status == (if node.stopping then Stopping else Started)
                             && CreditStage(st, n, name, Done) == st[j := st[j].(status := Done)]
  {
    var i := Addressee(s, n);
    var st := Cur(s.processes[i]);
    assert Linked(s.processes[i], s.nodes);
    forall k | 0 <= k < |st| && Reported(st[k], n) ensures Active(st[k]) && st[k].name == s.nodes[n].value.running {}
    if Unclaimed(s, n) || name != s.nodes[n].value.running {
      assert CreditStage(st, n, name, Done) == st;
    } else {
      var j :| 0 <= j < |st| && Active(st[j]) && st[j].node == n;
      assert Held(st[j], s.processes[i].id, s.nodes);
      assert CreditStage(st, n, name, Done) == st[j := st[j].(status := Done)];
    }
  }

  // ---- the steps that break ownership -----------------------------------------------

  /** A module is active on node `n` although the node is free or has another one. */
  ghost predicate Clash(s: Server, n: int) {
    exists i, j :: ActiveAt(s, i, j, n) &&
      (Free(s.nodes, n) || exists k, l :: (k != i || l != j) && ActiveAt(s, k, l, n))
  }

  lemma OwnedHasNoClash(s: Server, n: nat)
    requires Owned(s, -1) && Live(s.nodes, n)
    ensures !Clash(s, n)
  {
    forall i, j | ActiveAt(s, i, j, n)
      ensures !Free(s.nodes, n) && forall k, l :: ActiveAt(s, k, l, n) ==> k == i && l == j
    {
      assert Linked(s.processes[i], s.nodes) && Held(TheModule(s, i, j), s.processes[i].id, s.nodes);
      forall k, l | ActiveAt(s, k, l, n) ensures k == i && l == j { NodeHasOneOwner(s, i, j, k, l); }
    }
  }

  /** A change that keeps every active module keeps a clash. */
  lemma ClashMoves(s: Server, t: Server, n: int, shift: int)
    requires Clash(s, n) && Staged(t)
    requires forall i, j :: ActiveAt(s, i, j, n) ==>
      ActiveAt(t, if shift >= 0 && i > shift then i - 1 else i, j, n) && i != shift
    requires Free(s.nodes, n) ==> Free(t.nodes, n)
    ensures Clash(t, n)
  {
    var i, j :| ActiveAt(s, i, j, n) && (Free(s.nodes, n) || exists k, l :: (k != i || l != j) && ActiveAt(s, k, l, n));
    assert ActiveAt(t, if shift >= 0 && i > shift then i - 1 else i, j, n);
    if !Free(s.nodes, n) {
      var k, l :| (k != i || l != j) && ActiveAt(s, k, l, n);
      assert ActiveAt(t, if shift >= 0 && k > shift then k - 1 else k, l, n);
    }
  }

  lemma ClashSurvivesAssignment(s: Server, i: nat, j: nat, m: nat, n: int)
    requires Clash(s, n) && Staged(s) && i < |s.processes| && Free(s.nodes, m)
    requires j < |Cur(s.processes[i])| && Cur(s.processes[i])[j].status.Wait?
    ensures var p := s.processes[i];
            var q := WithCur(p, StartModule(Cur(p), j, m));
            Clash(SetNode(SetProcess(s, i, q), m, Occupied(s.nodes[m].value, q.id, Cur(p)[j].name)), n)
  {
    var p := s.processes[i];
    var q := WithCur(p, StartModule(Cur(p), j, m));
    var t := SetNode(SetProcess(s, i, q), m, Occupied(s.nodes[m].value, q.id, Cur(p)[j].name));
    forall k, l | ActiveAt(s, k, l, n) ensures ActiveAt(t, k, l, n) && (k != i || l != j) {}
    if m == n {
      assert ActiveAt(t, i, j, n);
    } else {
      ClashMoves(s, t, n, -1);
    }
  }

  lemma ClashSurvivesCheck(env: Env, s: Server, i: nat, n: int)
    requires Clash(s, n) && Staged(s) && i < |s.processes|
    ensures match CheckStage(env, s.processes[i])
            case Goes(q) => Clash(SetProcess(s, i, q), n)
            case Completes => Clash(Retire(s, i, s.processes[i]), n)
  {
    var p := s.processes[i];
    if StageDone(Cur(p)) {
      forall k, l | ActiveAt(s, k, l, n) ensures k != i { assert k == i ==> Over(Cur(p)[l]); }
    }
    match CheckStage(env, p)
    case Goes(q) => ClashMoves(s, SetProcess(s, i, q), n, -1);
    case Completes => ClashMoves(s, Retire(s, i, p), n, i);
  }

  lemma ClashSurvivesAsk(env: Env, s: Server, i: nat, m: nat, n: int)
    requires Clash(s, n) && Staged(s) && i < |s.processes| && Free(s.nodes, m)
    ensures Clash(Ask(env, s, i, m), n)
  {
    ClashSurvivesCheck(env, s, i, n);
    match GiveJob(env, s.processes[i], m, s.nodes[m].value)
    case Gives(q', name) =>
      var q := CheckStage(env, s.processes[i]).p;
      ClashSurvivesAssignment(SetProcess(s, i, q), i, FirstEligible(Cur(q), s.nodes[m].value), m, n);
      assert SetProcess(SetProcess(s, i, q), i, q') == SetProcess(s, i, q');
    case Refuses(q) =>
    case Ends =>
  }

  lemma ClashSurvivesPass(env: Env, s: Server, n: int)
    requires Clash(s, n) && Staged(s)
    ensures Clash(CheckQueue(env, s).s, n)
  {
    ghost var R := (t: Server, u: Server) => Clash(t, n) ==> Clash(u, n);
    forall t, k: nat, m: nat ensures AskRelates(env, R, t, k, m) {
      if Clash(t, n) && Staged(t) && k < |t.processes| && Free(t.nodes, m) { ClashSurvivesAsk(env, t, k, m, n); }
    }
    PassRelates(env, R, s, 0, 0);
  }

  /** Once a node is free with a module active on it, the queue loop cannot mend it. */
  lemma FreedTooSoon(env: Env, t: Server, i: int, j: int, n: nat)
    requires Staged(t) && ActiveAt(t, i, j, n) && Free(t.nodes, n)
    ensures !Owned(CheckQueue(env, t).s, -1)
  {
    hide Owned, Clash;
    assert Clash(t, n) by { ClashShows(t, i, j, n); }
    ClashSurvivesPass(env, t, n);
    if Owned(CheckQueue(env, t).s, -1) { OwnedHasNoClash(CheckQueue(env, t).s, n); }
  }

  lemma ClashShows(t: Server, i: int, j: int, n: int)
    requires ActiveAt(t, i, j, n) && Free(t.nodes, n)
    ensures Clash(t, n)
  {
  }

  /** An end report that is a failure keeps ownership exactly when its code is 0 or 2.
      With any other code, as 1 for an undefined output parameter, the node is freed while
      its module stays started. */
  lemma EndFailureKeepsIffCoded(env: Env, s: Server, n: nat, name: string, code: int)
    requires Owned(s, -1) && Addressed(s, n) && Enabled(s, EndFailed(n, name, code))
    requires !Step(env, s, EndFailed(n, name, code)).strayed
    ensures Owned(Step(env, s, EndFailed(n, name, code)).s, -1) <==> code == OUTPUT_MISSING || code == MAX_TIME_REACHED
  {
    if code == OUTPUT_MISSING || code == MAX_TIME_REACHED {
      StepKeeps(env, s, EndFailed(n, name, code));
    } else {
      AddresseeIsUnique(s, n);
      NoNodeLeaks(s, n);
      var i, j :| StartedAt(s, i, j, n);
      var t := ClearNode(s, n);
      assert ActiveAt(t, i, j, n) && Free(t.nodes, n);
      FreedTooSoon(env, t, i, j, n);
    }
  }

  /** A failed preparation keeps ownership exactly when its node is not stopping, or no
      module of its process claims the node.  A stopping node still reports a file whose
      transfer fails; it is freed while its module waits for the stop reply. */
  lemma PrepareFailureKeepsIff(env: Env, s: Server, n: nat, name: string, code: int)
    requires Owned(s, -1) && Addressed(s, n) && Enabled(s, PrepareFailed(n, name, code))
    ensures Owned(Step(env, s, PrepareFailed(n, name, code)).s, -1) <==> !s.nodes[n].value.stopping || Unclaimed(s, n)
  {
    if !s.nodes[n].value.stopping || Unclaimed(s, n) {
      PreparationKeeps(env, s, n, name, code);
    } else {
      var i := Addressee(s, n);
      var p := s.processes[i];
      var j :| 0 <= j < |Cur(p)| && Active(Cur(p)[j]) && Cur(p)[j].node == n;
      assert Linked(p, s.nodes) && Held(Cur(p)[j], p.id, s.nodes);
      var t := ClearNode(AddFailed(SetProcess(s, i, ClearJob(p, n)), n, name), n);
      assert Cur(t.processes[i])[j] == Cur(p)[j];
      FreedTooSoon(env, t, i, j, n);
    }
  }

  /** A stop reply under a name that no module of the process claims only frees the node. */
  lemma ReplyOnlyFrees(env: Env, s: Server, n: nat, name: string, success: bool)
    requires Owned(s, -1) && Addressed(s, n) && s.nodes[n].value.running != name && !Unclaimed(s, n)
    ensures StopReplySlot(env, s, n, name, success) == CheckQueue(env, ClearNode(s, n))
  {
    var i := Addressee(s, n);
    var p, t := s.processes[i], ClearNode(s, n);
    StopReplyCreditsAtMostOne(s, n, name);
    assert Credit(p, n, name, Done) == p;
    assert CheckStage(env, p) == Goes(p);
    assert SetProcess(s, i, p) == s && SetProcess(t, i, p) == t;
  }

  /** A stop reply keeps ownership exactly when it names the module of its node, or no
      module of the process claims the node; whether the node is stopping does not matter. */
  lemma StopReplyKeepsIff(env: Env, s: Server, n: nat, name: string, success: bool)
    requires Owned(s, -1) && Addressed(s, n) && !StopReplySlot(env, s, n, name, success).strayed
    ensures Owned(StopReplySlot(env, s, n, name, success).s, -1) <==>
      s.nodes[n].value.running == name || Unclaimed(s, n)
  {
    hide StopReplySlot;
    if s.nodes[n].value.running == name || Unclaimed(s, n) {
      StopReplyKeeps(env, s, n, name, success);
    } else {
      var i, t := Addressee(s, n), ClearNode(s, n);
      var j :| 0 <= j < |Cur(s.processes[i])| && Active(Cur(s.processes[i])[j]) && Cur(s.processes[i])[j].node == n;
      ReplyOnlyFrees(env, s, n, name, success);
      FreedTooSoon(env, t, i, j, n);
    }
  }

  /** Which steps keep exclusive ownership: exactly those of regular events. */
  lemma StepKeepsIff(env: Env, s: Server, e: Event)
    requires Owned(s, -1) && Enabled(s, e) && !Step(env, s, e).strayed
    ensures Owned(Step(env, s, e).s, -1) <==> Regular(s, e)
  {
    hide Owned;
    if Regular(s, e) {
      StepKeeps(env, s, e);
    } else {
      match e
      case EndFailed(n, name, code) => EndFailureKeepsIffCoded(env, s, n, name, code);
      case PrepareFailed(n, name, code) => PrepareFailureKeepsIff(env, s, n, name, code);
      case StopReply(n, name, success) => StopReplyKeepsIff(env, s, n, name, success);
    }
  }

  // ---- the smallest cases -----------------------------------------------------------

  /** One process whose only module is on the only node, running or being stopped. */
  function Lone(stopping: bool): Server {
    var m := StageModule("p.m", if stopping then Stopping else Started, 0, false, -1);
    Server([Process(0, [[m]], 0, 0)], [Some(Node(true, stopping, 0, "p.m", [NodeModule("p.m", false)]))], 1, [])
  }

  lemma LoneIsOwned(stopping: bool)
    ensures Owned(Lone(stopping), -1) && Addressed(Lone(stopping), 0) && !Unclaimed(Lone(stopping), 0)
  {
    var s := Lone(stopping);
    assert Active(Cur(s.processes[0])[0]) && s.processes[0].id == 0;
    if !stopping {
      assert RunsOn(s.processes[0], 0) by { assert Cur(s.processes[0])[0].status.Started?; }
      assert Leased(s.processes, 0, 0);
    }
    assert NodeSettled(s, 0);
  }

  /** The loop has nothing to give out. */
  lemma LoneStays(env: Env, stopping: bool, node: Node)
    requires !node.busy
    ensures var t := Lone(stopping).(nodes := [Some(node)]); CheckQueue(env, t) == Result(t, false)
  {
    var t := Lone(stopping).(nodes := [Some(node)]);
    var p := t.processes[0];
    assert !Over(Cur(p)[0]);
    assert GiveJob(env, p, 0, node) == Refuses(p);
    assert SetProcess(t, 0, p) == t;
    assert Pass(env, t, 0, 0) == Pass(env, t, 0, 1) == Pass(env, t, 1, 0) == Result(t, false);
  }

  /** One process, one node, an end report with code 1. */
  lemma UndefinedOutputLeaksModule(env: Env)
    ensures var s, e := Lone(false), EndFailed(0, "p.m", 1);
            Owned(s, -1) && Enabled(s, e) && !Step(env, s, e).strayed && !Owned(Step(env, s, e).s, -1)
  {
    var s := Lone(false);
    LoneIsOwned(false);
    LoneStays(env, false, Idle(s.nodes[0].value));
    assert ClearNode(s, 0) == s.(nodes := [Some(Idle(s.nodes[0].value))]);
    EndFailureKeepsIffCoded(env, s, 0, "p.m", 1);
  }

  /** The module is being stopped while one of its files is in flight, and the transfer
      fails: the node is free again, and the module is still being stopped on it. */
  lemma FailedTransferLeaksModule(env: Env)
    ensures var s, e := Lone(true), PrepareFailed(0, "p.m", TRANSFER_FAILED);
            Owned(s, -1) && Enabled(s, e) && !Step(env, s, e).strayed && !Owned(Step(env, s, e).s, -1)
  {
    var s := Lone(true);
    LoneIsOwned(true);
    var node := Node(false, false, -1, "", [NodeModule("p.m", true)]);
    var p := s.processes[0];
    assert Cur(p)[0] == StageModule("p.m", Stopping, 0, false, -1);
    assert ClearStage(Cur(p), 0) == Cur(p);
    assert ClearJob(p, 0) == p;
    assert SetProcess(s, 0, ClearJob(p, 0)) == s;
    assert MarkFailed(s.nodes[0].value.modules, "p.m") == node.modules;
    assert ClearNode(AddFailed(s, 0, "p.m"), 0) == s.(nodes := [Some(node)]);
    LoneStays(env, true, node);
    PrepareFailureKeepsIff(env, s, 0, "p.m", TRANSFER_FAILED);
  }

  /** A stop reply that comes late, to a node that runs another module by now. */
  lemma LateReplyLeaksModule(env: Env, success: bool)
    ensures var s, e := Lone(false), StopReply(0, "p.k", success);
            Owned(s, -1) && Enabled(s, e) && !Step(env, s, e).strayed && !Owned(Step(env, s, e).s, -1)
  {
    var s := Lone(false);
    LoneIsOwned(false);
    LoneStays(env, false, Idle(s.nodes[0].value));
    assert ClearNode(s, 0) == s.(nodes := [Some(Idle(s.nodes[0].value))]);
    ReplyOnlyFrees(env, s, 0, "p.k", success);
    StopReplyKeepsIff(env, s, 0, "p.k", success);
  }
}
