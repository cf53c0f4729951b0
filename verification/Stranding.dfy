/** How a module comes to be stopped on a node that is gone: only by the loss of its node. */
module Stranding {
  import opened Entities
  import opened ProcessSteps
  import opened ServerSteps
  import opened Ownership
  import opened OwnershipSlots
  import opened Guarantees
  import opened Runs
  import opened Resting

  /** Process `i` is `pid`, and its module `j` is being stopped on node `n`. */
  predicate StopsAt(s: Server, i: int, pid: int, j: int, n: int) {
    ActiveAt(s, i, j, n) && s.processes[i].id == pid && TheModule(s, i, j).status.Stopping?
  }

  predicate StoppingAt(s: Server, pid: int, j: int, n: int) {
    exists i :: 0 <= i < |s.processes| && StopsAt(s, i, pid, j, n)
  }

  /** Stages are in order, and nothing is being stopped that was not. */
  ghost predicate StopsNoMore(s: Server, t: Server, pid: int, j: int, n: int) {
    AllInOrder(s) ==> AllInOrder(t) && (StoppingAt(t, pid, j, n) ==> StoppingAt(s, pid, j, n))
  }

  lemma {:induction false} RebuildStopsNothing(env: Env, pid: int, st: Stage, k: nat)
    requires k <= |st| && Idling(st)
    ensures Idling(RebuildFrom(env, pid, st, k))
    decreases CountUnexpanded(st[k..]), |st| - k
  {
    if k < |st| {
      if Unexpanded(st[k]) {
        var size := ListSize(env, pid, st[k].name);
        if size != 0 {
          var tail := Instances(st[k], 1, size);
          ExpansionShrinks(st, k, tail);
          RebuildStopsNothing(env, pid, st[k := st[k].(elem := 0)] + tail, k);
        }
      } else {
        assert st[k..][1..] == st[k + 1..];
        RebuildStopsNothing(env, pid, st, k + 1);
      }
    }
  }

  /** Replacing a process by one in which nothing more is being stopped. */
  lemma SetStopsNoMore(s: Server, i: nat, q: Process, pid: int, j: int, n: int)
    requires AllInOrder(s) && i < |s.processes| && InOrder(q) && q.id == s.processes[i].id
    requires 0 <= j < |Cur(q)| && Cur(q)[j].status.Stopping? ==>
               j < |Cur(s.processes[i])| && Cur(s.processes[i])[j].status.Stopping? &&
               Cur(q)[j].node == Cur(s.processes[i])[j].node
    ensures StopsNoMore(s, SetProcess(s, i, q), pid, j, n)
  {
    var t := SetProcess(s, i, q);
    if StoppingAt(t, pid, j, n) {
      var k :| 0 <= k < |t.processes| && StopsAt(t, k, pid, j, n);
      assert StopsAt(s, k, pid, j, n);
    }
  }

  lemma RemoveStopsNoMore(s: Server, t: Server, i: nat, pid: int, j: int, n: int)
    requires AllInOrder(s) && i < |s.processes| && t.processes == RemoveAt(s.processes, i)
    requires forall k :: 0 <= k < |t.finished| ==> Complete(t.finished[k])
    ensures StopsNoMore(s, t, pid, j, n)
  {
    if StoppingAt(t, pid, j, n) {
      var k :| 0 <= k < |t.processes| && StopsAt(t, k, pid, j, n);
      var k' := if k < i then k else k + 1;
      assert t.processes[k] == s.processes[k'];
      assert StopsAt(s, k', pid, j, n);
    }
  }

  lemma SameStopsNoMore(s: Server, t: Server, pid: int, j: int, n: int)
    requires AllInOrder(s) && t.processes == s.processes && t.finished == s.finished
    ensures StopsNoMore(s, t, pid, j, n)
  {
    if StoppingAt(t, pid, j, n) {
      var k :| 0 <= k < |t.processes| && StopsAt(t, k, pid, j, n);
      assert StopsAt(s, k, pid, j, n);
    }
  }

  lemma CheckStopsNoMore(env: Env, s: Server, i: nat, pid: int, j: int, n: int)
    requires AllInOrder(s) && i < |s.processes| && s.processes[i].current < |s.processes[i].stages|
    ensures match CheckStage(env, s.processes[i])
            case Goes(q) => InOrder(q) && q.id == s.processes[i].id && StopsNoMore(s, SetProcess(s, i, q), pid, j, n)
            case Completes => StopsNoMore(s, Retire(s, i, s.processes[i]), pid, j, n)
  {
    hide Complete, StopsNoMore;
    var p := s.processes[i];
    CheckInOrder(env, p);
    match CheckStage(env, p)
    case Goes(q) =>
      if StageDone(Cur(p)) { RebuildStopsNothing(env, p.id, p.stages[p.current + 1], 0); }
      SetStopsNoMore(s, i, q, pid, j, n);
    case Completes => RemoveStopsNoMore(s, Retire(s, i, p), i, pid, j, n);
  }

  lemma AskStopsNoMore(env: Env, s: Server, i: nat, m: nat, pid: int, j: int, n: int)
    requires AllInOrder(s) && Staged(s) && i < |s.processes| && Free(s.nodes, m)
    ensures StopsNoMore(s, Ask(env, s, i, m), pid, j, n)
  {
    hide InOrder, Complete, StoppingAt;
    CheckStopsNoMore(env, s, i, pid, j, n);
    match GiveJob(env, s.processes[i], m, s.nodes[m].value)
    case Gives(q', name) =>
      var q := CheckStage(env, s.processes[i]).p;
      var t := SetProcess(s, i, q);
      WithCurInOrder(q, Cur(q'));
      assert t.processes[i] == q && WithCur(q, Cur(q')) == q';
      SetStopsNoMore(t, i, q', pid, j, n);
      assert SetProcess(t, i, q') == SetProcess(s, i, q');
      SameStopsNoMore(SetProcess(s, i, q'), Ask(env, s, i, m), pid, j, n);
    case Refuses(q) =>
    case Ends =>
  }

  lemma QueueStopsNoMore(env: Env, s: Server, pid: int, j: int, n: int)
    requires AllInOrder(s) && Staged(s)
    ensures StopsNoMore(s, CheckQueue(env, s).s, pid, j, n)
  {
    ghost var R := (t: Server, u: Server) => StopsNoMore(t, u, pid, j, n);
    forall t, k: nat, m: nat ensures AskRelates(env, R, t, k, m) {
      if AllInOrder(t) && Staged(t) && k < |t.processes| && Free(t.nodes, m) {
        AskStopsNoMore(env, t, k, m, pid, j, n);
      }
    }
    PassRelates(env, R, s, 0, 0);
  }

  lemma SettleStopsNoMore(env: Env, s: Server, i: nat, p: Process, pid: int, j: int, n: int)
    requires AllInOrder(s) && Staged(s) && i < |s.processes| && InOrder(p)
    requires p.current < |p.stages| && StopsNoMore(s, SetProcess(s, i, p), pid, j, n)
    ensures StopsNoMore(s, Settle(env, s, i, p).s, pid, j, n)
  {
    hide InOrder, Complete, StoppingAt;
    var t := SetProcess(s, i, p);
    CheckStopsNoMore(env, t, i, pid, j, n);
    match CheckStage(env, p)
    case Goes(q) => assert SetProcess(t, i, q) == SetProcess(s, i, q);
    case Completes =>
      assert Retire(t, i, p) == Retire(s, i, p);
      OrderIsStaged(Retire(s, i, p));
      QueueStopsNoMore(env, Retire(s, i, p), pid, j, n);
  }

  /** A report that clears or credits modules of its process. */
  lemma BounceStopsNoMore(env: Env, s: Server, m: nat, name: string, pid: int, j: int, n: int)
    requires AllInOrder(s) && Staged(s) && Addressed(s, m)
    ensures StopsNoMore(s, Bounce(env, s, m, name).s, pid, j, n)
  {
    hide Complete, StoppingAt;
    var i := Addressee(s, m);
    var p := s.processes[i];
    var t := SetProcess(s, i, ClearJob(p, m));
    var u := ClearNode(AddFailed(t, m, name), m);
    WithCurInOrder(p, ClearStage(Cur(p), m));
    SetStopsNoMore(s, i, ClearJob(p, m), pid, j, n);
    SameStopsNoMore(t, u, pid, j, n);
    QueueStopsNoMore(env, u, pid, j, n);
  }

  lemma CreditStopsNoMore(s: Server, i: nat, m: nat, name: string, to: Status, pid: int, j: int, n: int)
    requires AllInOrder(s) && Staged(s) && i < |s.processes| && (to.Done? || to.Stoped?)
    ensures var q := Credit(s.processes[i], m, name, to);
            q.current < |q.stages| && InOrder(q) && StopsNoMore(s, SetProcess(s, i, q), pid, j, n)
  {
    hide Complete, StoppingAt, StopsNoMore;
    var p := s.processes[i];
    WithCurInOrder(p, CreditStage(Cur(p), m, name, to));
    SetStopsNoMore(s, i, Credit(p, m, name, to), pid, j, n);
  }

  lemma CloseStopsNoMore(env: Env, s: Server, m: nat, name: string, to: Status, pid: int, j: int, n: int)
    requires AllInOrder(s) && Staged(s) && Addressed(s, m) && (to.Done? || to.Stoped?)
    ensures StopsNoMore(s, Close(env, s, m, name, to).s, pid, j, n)
  {
    hide InOrder, Complete, StoppingAt, Credit;
    var i := Addressee(s, m);
    var q := Credit(s.processes[i], m, name, to);
    CreditStopsNoMore(s, i, m, name, to, pid, j, n);
    SettleStopsNoMore(env, s, i, q, pid, j, n);
    var r := Settle(env, s, i, q);
    if !r.strayed {
      SameStopsNoMore(r.s, ClearNode(r.s, m), pid, j, n);
      QueueStopsNoMore(env, ClearNode(r.s, m), pid, j, n);
    }
  }

  lemma ReplyStopsNoMore(env: Env, s: Server, m: nat, name: string, success: bool, pid: int, j: int, n: int)
    requires AllInOrder(s) && Staged(s)
    ensures StopsNoMore(s, StopReplySlot(env, s, m, name, success).s, pid, j, n)
  {
    hide InOrder, Complete, StoppingAt, Credit, Close;
    if Live(s.nodes, m) {
      var t := ClearNode(s, m);
      SameStopsNoMore(s, t, pid, j, n);
      if !Addressed(s, m) {
        QueueStopsNoMore(env, t, pid, j, n);
      } else if success {
        CloseStopsNoMore(env, s, m, name, Done, pid, j, n);
      } else {
        var i := Addressee(s, m);
        var q := Credit(s.processes[i], m, name, Done);
        CreditStopsNoMore(t, i, m, name, Done, pid, j, n);
        SettleStopsNoMore(env, t, i, q, pid, j, n);
        var r := Settle(env, t, i, q);
        if !r.strayed { QueueStopsNoMore(env, r.s, pid, j, n); }
      }
    } else {
      SameStopsNoMore(s, s, pid, j, n);
    }
  }

  lemma ArrivalStopsNoMore(env: Env, s: Server, stages: seq<Stage>, start: nat, pid: int, j: int, n: int)
    requires AllInOrder(s) && Staged(s) && start < |stages| && FreshPlan(stages)
    ensures StopsNoMore(s, ProcessArrivesSlot(env, s, stages, start).s, pid, j, n)
  {
    hide Complete;
    var p := Process(s.counter, stages, start, start);
    assert InOrder(p) && Idling(Cur(p));
    RebuildStopsNothing(env, p.id, Cur(p), 0);
    WithCurInOrder(p, RebuildFrom(env, p.id, Cur(p), 0));
    var q := Rebuild(env, p);
    var t := s.(counter := s.counter + 1, processes := s.processes + [q]);
    CheckStopsNoMore(env, t, |s.processes|, pid, j, n);
    match CheckStage(env, q)
    case Completes => SameStopsNoMore(s, s.(counter := s.counter + 1), pid, j, n);
    case Goes(q') =>
      var u := s.(counter := s.counter + 1, processes := s.processes + [q']);
      assert u == SetProcess(t, |s.processes|, q');
      JoinStopsNoMore(s, t, q, pid, j, n);
      QueueStopsNoMore(env, u, pid, j, n);
  }

  lemma JoinStopsNoMore(s: Server, t: Server, q: Process, pid: int, j: int, n: int)
    requires AllInOrder(s) && InOrder(q) && Idling(Cur(q))
    requires t.processes == s.processes + [q] && t.finished == s.finished
    ensures StopsNoMore(s, t, pid, j, n)
  {
    if StoppingAt(t, pid, j, n) {
      var k :| 0 <= k < |t.processes| && StopsAt(t, k, pid, j, n);
      assert t.processes[k] == if k < |s.processes| then s.processes[k] else q;
      assert k < |s.processes|;
      assert StopsAt(s, k, pid, j, n);
    }
  }

  lemma DeletionStopsNoMore(env: Env, s: Server, other: int, pid: int, j: int, n: int)
    requires AllInOrder(s) && Staged(s)
    ensures StopsNoMore(s, ProcessStoppedSlot(env, s, other).s, pid, j, n)
  {
    var i := FindProcess(s.processes, other);
    if i < |s.processes| {
      var t := s.(processes := RemoveAt(s.processes, i), nodes := FreeNodes(s.nodes, FreeSignals(Cur(s.processes[i]))));
      RemoveStopsNoMore(s, t, i, pid, j, n);
      QueueStopsNoMore(env, t, pid, j, n);
    }
  }

  lemma RewindStopsNoMore(env: Env, s: Server, other: int, stage: nat, pid: int, j: int, n: int)
    requires AllInOrder(s) && Staged(s)
    ensures StopsNoMore(s, StageRequestedSlot(env, s, other, stage).s, pid, j, n)
  {
    hide Complete;
    var i := FindProcess(s.processes, other);
    if i < |s.processes| && stage <= s.processes[i].current {
      var p := s.processes[i];
      var t := s.(nodes := FreeNodes(s.nodes, FreeSignalsOf(p.stages, stage, p.current + 1)));
      var q := Rewind(p, stage);
      RewindInOrder(p, stage);
      assert Idling(Cur(q));
      RebuildStopsNothing(env, p.id, Cur(q), 0);
      WithCurInOrder(q, RebuildFrom(env, p.id, Cur(q), 0));
      SameStopsNoMore(s, t, pid, j, n);
      SetStopsNoMore(t, i, Rebuild(env, q), pid, j, n);
      SettleStopsNoMore(env, t, i, Rebuild(env, q), pid, j, n);
    }
  }

  lemma LossStopsNoMore(s: Server, m: nat, pid: int, j: int, n: int)
    requires AllInOrder(s) && Staged(s)
    ensures StoppingAt(NodeLostSlot(s, m).s, pid, j, n) ==> StoppingAt(s, pid, j, n)
  {
    var t := NodeLostSlot(s, m).s;
    if Live(s.nodes, m) && StoppingAt(t, pid, j, n) {
      var k :| 0 <= k < |t.processes| && StopsAt(t, k, pid, j, n);
      assert t.processes[k] == ClearJob(s.processes[k], m);
      assert TheModule(t, k, j) == Cleared(TheModule(s, k, j), m);
      assert StopsAt(s, k, pid, j, n);
    }
  }

  /** No event but a stop request makes a module a stopping one. */
  lemma StepStopsNoMore(env: Env, s: Server, e: Event, pid: int, j: int, n: int)
    requires AllInOrder(s) && Staged(s) && Enabled(s, e) && !e.StopRequested?
    ensures StoppingAt(Step(env, s, e).s, pid, j, n) ==> StoppingAt(s, pid, j, n)
  {
    hide InOrder, Complete, StoppingAt, Bounce, Close, StopReplySlot, NodeLostSlot, ProcessArrivesSlot,
         ProcessStoppedSlot, StageRequestedSlot;
    match e
    case NodeArrives => SameStopsNoMore(s, Step(env, s, e).s, pid, j, n);
    case ModulesListed(m, names) =>
      var t := SetNode(s, m, s.nodes[m].value.(modules := Installed(names)));
      SameStopsNoMore(s, t, pid, j, n);
      QueueStopsNoMore(env, t, pid, j, n);
    case ModulesDropped(m) => SameStopsNoMore(s, Step(env, s, e).s, pid, j, n);
    case PrepareSucceeded(m, name) =>
    case PrepareFailed(m, name, code) => PreparationStopsNoMore(env, s, m, name, code, pid, j, n);
    case StartSucceeded(m, name) =>
    case StartFailed(m, name) => if Addressed(s, m) { BounceStopsNoMore(env, s, m, name, pid, j, n); }
    case EndSucceeded(m, name) => if Addressed(s, m) { CloseStopsNoMore(env, s, m, name, Done, pid, j, n); }
    case EndFailed(m, name, code) =>
      if Addressed(s, m) {
        if code == OUTPUT_MISSING {
          BounceStopsNoMore(env, s, m, name, pid, j, n);
        } else if code == MAX_TIME_REACHED {
          CloseStopsNoMore(env, s, m, name, Stoped, pid, j, n);
        } else {
          SameStopsNoMore(s, ClearNode(s, m), pid, j, n);
          QueueStopsNoMore(env, ClearNode(s, m), pid, j, n);
        }
      }
    case StopReply(m, name, success) => ReplyStopsNoMore(env, s, m, name, success, pid, j, n);
    case NodeLost(m) => LossStopsNoMore(s, m, pid, j, n);
    case FailedCleared => SameStopsNoMore(s, Step(env, s, e).s, pid, j, n);
    case ProcessArrives(stages, start) => ArrivalStopsNoMore(env, s, stages, start, pid, j, n);
    case ProcessStopped(other) => DeletionStopsNoMore(env, s, other, pid, j, n);
    case StageRequested(other, stage) => RewindStopsNoMore(env, s, other, stage, pid, j, n);
  }

  lemma PreparationStopsNoMore(env: Env, s: Server, m: nat, name: string, code: int, pid: int, j: int, n: int)
    requires AllInOrder(s) && Staged(s)
    ensures StoppingAt(PrepareFailedSlot(env, s, m, name, code).s, pid, j, n) ==> StoppingAt(s, pid, j, n)
  {
    hide Complete, StoppingAt, Bounce;
    if Addressed(s, m) {
      if code == MD5_DIFFERS {
        var i := Addressee(s, m);
        var p := s.processes[i];
        WithCurInOrder(p, ClearStage(Cur(p), m));
        SetStopsNoMore(s, i, ClearJob(p, m), pid, j, n);
        SameStopsNoMore(SetProcess(s, i, ClearJob(p, m)), PrepareFailedSlot(env, s, m, name, code).s, pid, j, n);
      } else {
        BounceStopsNoMore(env, s, m, name, pid, j, n);
      }
    }
  }

  /** A stop request reaches modules on live nodes only. */
  lemma StopRequestStrandsNone(s: Server, other: int, sel: Selector, pid: int, j: int)
    requires Owned(s, -1) && Stranded(StopRequestedSlot(s, other, sel).s, pid, j)
    ensures Stranded(s, pid, j)
  {
    var i := FindProcess(s.processes, other);
    if i < |s.processes| {
      var p, t := s.processes[i], StopRequestedSlot(s, other, sel).s;
      var k :| 0 <= k < |t.processes| && t.processes[k].id == pid && StrandedAt(t, k, j);
      var m := TheModule(t, k, j).node;
      StopNodesAt(s.nodes, s.processes, StopSignals(Cur(p), sel), m);
      assert Linked(s.processes[k], s.nodes);
      if k == i {
        assert TheModule(t, k, j) == StopOne(TheModule(s, k, j), sel);
        assert Held(TheModule(s, k, j), s.processes[k].id, s.nodes);
      }
      assert StrandedAt(s, k, j);
    }
  }

  /** The nodes connected stay so. */
  predicate LosesNone(s: Server, t: Server) {
    |t.nodes| >= |s.nodes| && forall n :: 0 <= n < |t.nodes| && t.nodes[n].None? ==> n < |s.nodes| && s.nodes[n].None?
  }

  lemma QueueLosesNone(env: Env, s: Server)
    requires Staged(s)
    ensures LosesNone(s, CheckQueue(env, s).s)
  {
  }

  lemma ReportLosesNone(env: Env, s: Server, n: nat, name: string, to: Status)
    requires Staged(s) && Addressed(s, n)
    ensures LosesNone(s, Bounce(env, s, n, name).s) && LosesNone(s, Close(env, s, n, name, to).s)
  {
    hide CheckQueue, Settle, Credit, ClearJob;
  }

  lemma ReplyLosesNone(env: Env, s: Server, n: nat, name: string, success: bool)
    requires Staged(s)
    ensures LosesNone(s, StopReplySlot(env, s, n, name, success).s)
  {
    hide CheckQueue, Settle, Credit, Close;
    if Addressed(s, n) { ReportLosesNone(env, s, n, name, Done); }
  }

  lemma CommandLosesNone(env: Env, s: Server, e: Event)
    requires Staged(s) && Enabled(s, e)
    requires e.ProcessArrives? || e.ProcessStopped? || e.StageRequested? || e.StopRequested?
    ensures LosesNone(s, Step(env, s, e).s)
  {
    hide CheckQueue, CheckStage, Settle, Rebuild, Rewind, StopModules;
    match e
    case ProcessArrives(stages, start) =>
    case ProcessStopped(pid) =>
      var i := FindProcess(s.processes, pid);
      if i < |s.processes| {
        forall n | 0 <= n < |s.nodes|
          ensures FreeNodes(s.nodes, FreeSignals(Cur(s.processes[i])))[n].None? ==> s.nodes[n].None?
        {
          FreeNodesAt(s.nodes, FreeSignals(Cur(s.processes[i])), n);
        }
      }
    case StageRequested(pid, stage) =>
      var i := FindProcess(s.processes, pid);
      if i < |s.processes| && stage <= s.processes[i].current {
        var signals := FreeSignalsOf(s.processes[i].stages, stage, s.processes[i].current + 1);
        forall n | 0 <= n < |s.nodes| ensures FreeNodes(s.nodes, signals)[n].None? ==> s.nodes[n].None? {
          FreeNodesAt(s.nodes, signals, n);
        }
      }
    case StopRequested(pid, sel) =>
      var i := FindProcess(s.processes, pid);
      if i < |s.processes| {
        var signals := StopSignals(Cur(s.processes[i]), sel);
        forall n | 0 <= n < |s.nodes| ensures StopNodes(s.nodes, s.processes, signals)[n].None? ==> s.nodes[n].None? {
          StopNodesAt(s.nodes, s.processes, signals, n);
        }
      }
  }

  /** No node is lost but by its own disconnection. */
  lemma StepLosesNone(env: Env, s: Server, e: Event, n: nat)
    requires Staged(s) && Enabled(s, e) && e != NodeLost(n)
    requires n < |Step(env, s, e).s.nodes| && Step(env, s, e).s.nodes[n].None?
    ensures n < |s.nodes| && s.nodes[n].None?
  {
    hide CheckQueue, Bounce, Close, StopReplySlot, ProcessArrivesSlot, ProcessStoppedSlot, StageRequestedSlot,
         StopRequestedSlot;
    match e
    case PrepareFailed(m, name, code) => if Addressed(s, m) { ReportLosesNone(env, s, m, name, Done); }
    case StartFailed(m, name) => if Addressed(s, m) { ReportLosesNone(env, s, m, name, Done); }
    case EndSucceeded(m, name) => if Addressed(s, m) { ReportLosesNone(env, s, m, name, Done); }
    case EndFailed(m, name, code) => if Addressed(s, m) { ReportLosesNone(env, s, m, name, Stoped); }
    case StopReply(m, name, success) => ReplyLosesNone(env, s, m, name, success);
    case NodeArrives =>
    case ModulesListed(m, names) =>
    case ModulesDropped(m) =>
    case PrepareSucceeded(m, name) =>
    case StartSucceeded(m, name) =>
    case NodeLost(m) =>
    case FailedCleared =>
    case _ => CommandLosesNone(env, s, e);
  }

  lemma OwnedInOrder(s: Server)
    requires Owned(s, -1)
    ensures AllInOrder(s) && Staged(s)
  {
    forall i, k | 0 <= i < |s.processes| && 0 <= k < |s.processes[i].stages| && k != s.processes[i].current
      ensures Idling(s.processes[i].stages[k])
    {
      assert Quiet(s.processes[i].stages[k]);
    }
  }

  /** Under ownership exactly one kind of step strands a module: the loss of the node that is
      stopping it. */
  lemma StepStrandsIff(env: Env, s: Server, e: Event, pid: int, j: int)
    requires Owned(s, -1) && Staged(s) && Enabled(s, e) && !Stranded(s, pid, j)
    ensures Stranded(Step(env, s, e).s, pid, j) <==> e.NodeLost? && StoppingAt(s, pid, j, e.n)
  {
    hide Owned, Step;
    if e.NodeLost? && StoppingAt(s, pid, j, e.n) {
      StoppingNodeIsLive(s, pid, j, e.n);
      var i :| 0 <= i < |s.processes| && StopsAt(s, i, pid, j, e.n);
      LostNodeStrands(s, e.n, i, j);
      assert Step(env, s, e) == NodeLostSlot(s, e.n) by { LossIsSlot(env, s, e.n); }
    } else if Stranded(Step(env, s, e).s, pid, j) {
      StrandedWasStopping(env, s, e, pid, j);
    }
  }

  lemma LossIsSlot(env: Env, s: Server, n: nat)
    requires Staged(s)
    ensures Step(env, s, NodeLost(n)) == NodeLostSlot(s, n)
  {
  }

  lemma StoppingNodeIsLive(s: Server, pid: int, j: int, n: int)
    requires Owned(s, -1) && StoppingAt(s, pid, j, n) && !Stranded(s, pid, j)
    ensures Live(s.nodes, n)
  {
    var i :| 0 <= i < |s.processes| && StopsAt(s, i, pid, j, n);
    assert Linked(s.processes[i], s.nodes) && Held(TheModule(s, i, j), s.processes[i].id, s.nodes);
    assert Live(s.nodes, n) || StrandedAt(s, i, j);
  }

  /** Whatever is stranded after a step was so before, or its node has just been lost. */
  lemma StrandedWasStopping(env: Env, s: Server, e: Event, pid: int, j: int)
    requires Owned(s, -1) && Staged(s) && Enabled(s, e) && Stranded(Step(env, s, e).s, pid, j)
    ensures Stranded(s, pid, j) || (e.NodeLost? && StoppingAt(s, pid, j, e.n))
  {
    hide Owned, Step;
    var t := Step(env, s, e).s;
    var k :| 0 <= k < |t.processes| && t.processes[k].id == pid && StrandedAt(t, k, j);
    var n := TheModule(t, k, j).node;
    if e.StopRequested? {
      assert t == StopRequestedSlot(s, e.pid, e.sel).s by { StopIsSlot(env, s, e.pid, e.sel); }
      StopRequestStrandsNone(s, e.pid, e.sel, pid, j);
    } else {
      assert StopsAt(t, k, pid, j, n);
      OwnedInOrder(s);
      StepStopsNoMore(env, s, e, pid, j, n);
      if e != NodeLost(n) {
        StepLosesNone(env, s, e, n);
        var i :| 0 <= i < |s.processes| && StopsAt(s, i, pid, j, n);
        assert StrandedAt(s, i, j);
      }
    }
  }

  lemma StopIsSlot(env: Env, s: Server, pid: int, sel: Selector)
    requires Staged(s)
    ensures Step(env, s, StopRequested(pid, sel)) == StopRequestedSlot(s, pid, sel)
  {
  }
}
