/** What a server that has come to rest still holds: only modules that were being stopped
    when their node was lost, and those stay. */
module Resting {
  import opened Entities
  import opened ProcessSteps
  import opened ServerSteps
  import opened Ownership
  import opened OwnershipSlots
  import opened Guarantees
  import opened Runs
  import opened Progress

  // ---- fair runs --------------------------------------------------------------------

  predicate BusyNode(s: Server, n: int) {
    Live(s.nodes, n) && s.nodes[n].value.busy
  }

  /** A final answer of node `n` about its module: a stopping node answers with the stop
      reply, another one with the end of the module or a failure. */
  predicate Answers(s: Server, e: Event, n: int)
    requires Live(s.nodes, n)
  {
    match e
    case StopReply(m, name, success) => m == n
    case PrepareFailed(m, name, code) => m == n && !s.nodes[n].value.stopping
    case StartFailed(m, name) => m == n && !s.nodes[n].value.stopping
    case EndSucceeded(m, name) => m == n && !s.nodes[n].value.stopping
    case EndFailed(m, name, code) => m == n && !s.nodes[n].value.stopping
    case _ => false
  }

  /** A busy node that is not stopping works for a listed process. */
  lemma BusyIsAddressed(s: Server, n: nat)
    requires Owned(s, -1) && BusyNode(s, n) && !s.nodes[n].value.stopping
    ensures Addressed(s, n)
  {
    assert NodeSettled(s, n);
    var i :| 0 <= i < |s.processes| && s.processes[i].id == s.nodes[n].value.processId;
    assert FindProcess(s.processes, s.nodes[n].value.processId) <= i;
  }

  /** Every final answer of a busy node changes the server. */
  lemma AnswerMoves(env: Env, s: Server, e: Event, n: nat)
    requires Owned(s, -1) && AllEquipped(s) && Enabled(s, e) && Regular(s, e) && Closed(s, e)
    requires BusyNode(s, n) && Answers(s, e, n) && !Step(env, s, e).strayed
    ensures Step(env, s, e).s != s
  {
    hide Less, Bounce, Close, StopReplySlot, Owned, AllEquipped;
    LessIsStrict(s);
    if !s.nodes[n].value.stopping { BusyIsAddressed(s, n); }
    match e
    case PrepareFailed(m, name, code) => FailureDescends(env, s, n, name);
    case StartFailed(m, name) => FailureDescends(env, s, n, name);
    case EndSucceeded(m, name) => EndDescends(env, s, n, name, Done);
    case EndFailed(m, name, code) =>
      if code == OUTPUT_MISSING { FailureDescends(env, s, n, name); } else { EndDescends(env, s, n, name, Stoped); }
    case StopReply(m, name, success) => StopReplyDescends(env, s, n, name, success);
  }

  lemma LessIsStrict(s: Server)
    ensures !Less(MeasureOf(s), MeasureOf(s))
  {
  }

  /** Every busy node answers some time, or is busy no more. */
  ghost predicate WillAnswer(run: nat -> Server, moves: nat -> Move, n: nat, k: nat) {
    exists l: nat :: l >= k && (!BusyNode(run(l), n) || Answers(run(l), moves(l).event, n))
  }

  ghost predicate Fair(run: nat -> Server, moves: nat -> Move) {
    forall n: nat, k: nat :: WillAnswer(run, moves, n, k)
  }

  lemma {:induction false} RestStays(run: nat -> Server, k: nat, l: nat)
    requires RestsFrom(run, k) && l >= k
    ensures run(l) == run(k)
    decreases l
  {
    if l > k {
      RestStays(run, k, l - 1);
      assert Rests(run, l - 1);
    }
  }

  lemma NoneBusyAtRest(run: nat -> Server, moves: nat -> Move, k: nat, n: nat)
    requires EndlessRun(run, moves) && Fair(run, moves) && RestsFrom(run, k)
    ensures !BusyNode(run(k), n)
  {
    hide Owned, AllEquipped, Step, Answers, Enabled, Regular, Closed;
    assert WillAnswer(run, moves, n, k);
    var l: nat :| l >= k && (!BusyNode(run(l), n) || Answers(run(l), moves(l).event, n));
    RestStays(run, k, l);
    if BusyNode(run(l), n) {
      assert ClosedMove(run, moves, l) && Rests(run, l);
      EndlessRunStays(run, moves, l);
      AnswerMoves(moves(l).env, run(l), moves(l).event, n);
    }
  }

  /** With no node busy only modules whose node was lost are still active, and all of them
      are being stopped. */
  lemma ActiveIsStranded(s: Server, i: int, j: int)
    requires Owned(s, -1) && ModuleAt(s, i, j) && Active(TheModule(s, i, j))
    requires forall n: nat :: !BusyNode(s, n)
    ensures StrandedAt(s, i, j)
  {
    assert Linked(s.processes[i], s.nodes);
    assert Held(TheModule(s, i, j), s.processes[i].id, s.nodes);
    assert !BusyNode(s, TheModule(s, i, j).node);
  }

  /** An endless closed run in which every busy node answers comes to a state that stays: no
      node is busy, and every module still active is being stopped on a node that is lost. */
  lemma FairRunsLeaveOnlyStranded(run: nat -> Server, moves: nat -> Move)
    requires EndlessRun(run, moves) && Fair(run, moves)
    ensures exists k: nat :: RestsFrom(run, k) && (forall n: nat :: !BusyNode(run(k), n))
                             && forall i, j :: ModuleAt(run(k), i, j) && Active(TheModule(run(k), i, j)) ==>
                                 StrandedAt(run(k), i, j)
  {
    ClosedRunsComeToRest(run, moves, 0);
    var k: nat :| RestsFrom(run, k);
    EndlessRunStays(run, moves, k);
    var s := run(k);
    forall n: nat ensures !BusyNode(s, n) { NoneBusyAtRest(run, moves, k, n); }
    forall i, j | ModuleAt(s, i, j) && Active(TheModule(s, i, j))
      ensures StrandedAt(s, i, j)
    {
      ActiveIsStranded(s, i, j);
    }
  }

  // ---- stranded modules -------------------------------------------------------------

  /** A module is being stopped on a node that is lost. */
  predicate StrandedAt(s: Server, i: int, j: int) {
    && ModuleAt(s, i, j) && TheModule(s, i, j).status.Stopping?
    && 0 <= TheModule(s, i, j).node < |s.nodes| && s.nodes[TheModule(s, i, j).node].None?
  }

  /** Module `j` of process `pid` is stranded. */
  predicate Stranded(s: Server, pid: int, j: int) {
    exists i :: 0 <= i < |s.processes| && s.processes[i].id == pid && StrandedAt(s, i, j)
  }

  /** How it comes about: the node is lost while it stops the module. */
  lemma LostNodeStrands(s: Server, n: nat, i: int, j: int)
    requires Owned(s, -1) && Live(s.nodes, n) && ModuleAt(s, i, j)
    requires TheModule(s, i, j).status.Stopping? && TheModule(s, i, j).node == n
    ensures Stranded(NodeLostSlot(s, n).s, s.processes[i].id, j)
  {
    var t := NodeLostSlot(s, n).s;
    ClearedSameId(s.processes[i], n);
    assert t.processes[i] == ClearJob(s.processes[i], n);
    assert StrandedAt(t, i, j);
  }

  lemma SetKeepsStranded(s: Server, pid: int, j: int, i: nat, q: Process)
    requires Stranded(s, pid, j) && i < |s.processes| && q.id == s.processes[i].id
    requires StrandedAt(s, i, j) ==> q.current < |q.stages| && 0 <= j < |Cur(q)| && Cur(q)[j] == TheModule(s, i, j)
    ensures Stranded(SetProcess(s, i, q), pid, j)
  {
    var t := SetProcess(s, i, q);
    var k :| 0 <= k < |s.processes| && s.processes[k].id == pid && StrandedAt(s, k, j);
    assert t.processes[k].id == pid && StrandedAt(t, k, j);
  }

  lemma RemoveKeepsStranded(s: Server, t: Server, pid: int, j: int, i: nat)
    requires Stranded(s, pid, j) && i < |s.processes| && (s.processes[i].id != pid || !StrandedAt(s, i, j))
    requires t == s.(processes := RemoveAt(s.processes, i), nodes := t.nodes, finished := t.finished)
    requires |t.nodes| == |s.nodes| && forall n :: 0 <= n < |s.nodes| && s.nodes[n].None? ==> t.nodes[n].None?
    ensures Stranded(t, pid, j)
  {
    var k :| 0 <= k < |s.processes| && s.processes[k].id == pid && StrandedAt(s, k, j);
    var k' := if k < i then k else k - 1;
    assert t.processes[k'] == s.processes[k];
    assert StrandedAt(t, k', j);
  }

  lemma NodesKeepStranded(s: Server, t: Server, pid: int, j: int)
    requires Stranded(s, pid, j) && t.processes == s.processes && |t.nodes| >= |s.nodes|
    requires forall n :: 0 <= n < |s.nodes| && s.nodes[n].None? ==> t.nodes[n].None?
    ensures Stranded(t, pid, j)
  {
    var k :| 0 <= k < |s.processes| && s.processes[k].id == pid && StrandedAt(s, k, j);
    assert StrandedAt(t, k, j);
  }

  lemma StrandedIsNotDone(s: Server, i: int, j: int)
    requires StrandedAt(s, i, j)
    ensures !StageDone(Cur(s.processes[i]))
  {
    assert !Over(TheModule(s, i, j));
  }

  lemma CheckKeepsStranded(env: Env, s: Server, pid: int, j: int, i: nat)
    requires Staged(s) && Stranded(s, pid, j) && i < |s.processes|
    ensures match CheckStage(env, s.processes[i])
            case Goes(q) => q.id == s.processes[i].id && Stranded(SetProcess(s, i, q), pid, j)
            case Completes => Stranded(Retire(s, i, s.processes[i]), pid, j)
  {
    var p := s.processes[i];
    if StrandedAt(s, i, j) { StrandedIsNotDone(s, i, j); }
    match CheckStage(env, p)
    case Goes(q) => SetKeepsStranded(s, pid, j, i, q);
    case Completes => RemoveKeepsStranded(s, Retire(s, i, p), pid, j, i);
  }

  lemma AskKeepsStranded(env: Env, s: Server, pid: int, j: int, i: nat, n: nat)
    requires Staged(s) && Stranded(s, pid, j) && i < |s.processes| && Free(s.nodes, n)
    ensures Stranded(Ask(env, s, i, n), pid, j)
  {
    CheckKeepsStranded(env, s, pid, j, i);
    match GiveJob(env, s.processes[i], n, s.nodes[n].value)
    case Gives(q', name) =>
      var q := CheckStage(env, s.processes[i]).p;
      var t := SetProcess(s, i, q);
      SetKeepsStranded(t, pid, j, i, q');
      assert SetProcess(t, i, q') == SetProcess(s, i, q');
      NodesKeepStranded(SetProcess(s, i, q'), Ask(env, s, i, n), pid, j);
    case Refuses(q) =>
    case Ends =>
  }

  lemma QueueKeepsStranded(env: Env, s: Server, pid: int, j: int)
    requires Staged(s) && Stranded(s, pid, j)
    ensures Stranded(CheckQueue(env, s).s, pid, j)
  {
    var R := (t: Server, u: Server) => Stranded(t, pid, j) ==> Stranded(u, pid, j);
    forall t, k: nat, m: nat ensures AskRelates(env, R, t, k, m) {
      if Staged(t) && Stranded(t, pid, j) && k < |t.processes| && Free(t.nodes, m) {
        AskKeepsStranded(env, t, pid, j, k, m);
      }
    }
    PassRelates(env, R, s, 0, 0);
  }

  lemma SettleKeepsStranded(env: Env, s: Server, pid: int, j: int, i: nat, p: Process)
    requires Staged(s) && i < |s.processes| && p.current < |p.stages| && Stranded(SetProcess(s, i, p), pid, j)
    ensures Stranded(Settle(env, s, i, p).s, pid, j)
  {
    var t := SetProcess(s, i, p);
    CheckKeepsStranded(env, t, pid, j, i);
    match CheckStage(env, p)
    case Goes(q) => assert SetProcess(t, i, q) == SetProcess(s, i, q);
    case Completes =>
      assert Retire(t, i, p) == Retire(s, i, p);
      QueueKeepsStranded(env, Retire(s, i, p), pid, j);
  }

  /** A report from a live node says nothing about a module on a lost one. */
  lemma CreditKeepsStranded(s: Server, pid: int, j: int, n: nat, name: string, to: Status)
    requires Staged(s) && Stranded(s, pid, j) && Addressed(s, n)
    ensures var i := Addressee(s, n); Stranded(SetProcess(s, i, Credit(s.processes[i], n, name, to)), pid, j)
  {
    var i := Addressee(s, n);
    SetKeepsStranded(s, pid, j, i, Credit(s.processes[i], n, name, to));
  }

  lemma ClearKeepsStranded(s: Server, pid: int, j: int, n: nat)
    requires Staged(s) && Stranded(s, pid, j) && Addressed(s, n)
    ensures var i := Addressee(s, n); Stranded(SetProcess(s, i, ClearJob(s.processes[i], n)), pid, j)
  {
    var i := Addressee(s, n);
    SetKeepsStranded(s, pid, j, i, ClearJob(s.processes[i], n));
  }

  lemma BounceKeepsStranded(env: Env, s: Server, pid: int, j: int, n: nat, name: string)
    requires Staged(s) && Stranded(s, pid, j) && Addressed(s, n)
    ensures Stranded(Bounce(env, s, n, name).s, pid, j)
  {
    var i := Addressee(s, n);
    ClearKeepsStranded(s, pid, j, n);
    var t := SetProcess(s, i, ClearJob(s.processes[i], n));
    var u := ClearNode(AddFailed(t, n, name), n);
    NodesKeepStranded(t, u, pid, j);
    QueueKeepsStranded(env, u, pid, j);
  }

  lemma CloseKeepsStranded(env: Env, s: Server, pid: int, j: int, n: nat, name: string, to: Status)
    requires Staged(s) && Stranded(s, pid, j) && Addressed(s, n)
    ensures Stranded(Close(env, s, n, name, to).s, pid, j)
  {
    var i := Addressee(s, n);
    var q := Credit(s.processes[i], n, name, to);
    CreditKeepsStranded(s, pid, j, n, name, to);
    SettleKeepsStranded(env, s, pid, j, i, q);
    var r := Settle(env, s, i, q);
    if !r.strayed {
      NodesKeepStranded(r.s, ClearNode(r.s, n), pid, j);
      QueueKeepsStranded(env, ClearNode(r.s, n), pid, j);
    }
  }

  lemma ReplyKeepsStranded(env: Env, s: Server, pid: int, j: int, n: nat, name: string, success: bool)
    requires Staged(s) && Stranded(s, pid, j)
    ensures Stranded(StopReplySlot(env, s, n, name, success).s, pid, j)
  {
    if Live(s.nodes, n) {
      var t := ClearNode(s, n);
      NodesKeepStranded(s, t, pid, j);
      if !Addressed(s, n) {
        QueueKeepsStranded(env, t, pid, j);
      } else if success {
        CloseKeepsStranded(env, s, pid, j, n, name, Done);
      } else {
        var i := Addressee(s, n);
        var q := Credit(s.processes[i], n, name, Done);
        CreditKeepsStranded(s, pid, j, n, name, Done);
        NodesKeepStranded(SetProcess(s, i, q), SetProcess(t, i, q), pid, j);
        SettleKeepsStranded(env, t, pid, j, i, q);
        var r := Settle(env, t, i, q);
        if !r.strayed { QueueKeepsStranded(env, r.s, pid, j); }
      }
    }
  }

  /** The commands that take a process out of its stage. */
  predicate Releases(e: Event, pid: int) {
    (e.ProcessStopped? && e.pid == pid) || (e.StageRequested? && e.pid == pid)
  }

  lemma ArrivalKeepsStranded(env: Env, s: Server, pid: int, j: int, stages: seq<Stage>, start: nat)
    requires Staged(s) && Stranded(s, pid, j) && start < |stages|
    ensures Stranded(ProcessArrivesSlot(env, s, stages, start).s, pid, j)
  {
    var k :| 0 <= k < |s.processes| && s.processes[k].id == pid && StrandedAt(s, k, j);
    match CheckStage(env, Rebuild(env, Process(s.counter, stages, start, start)))
    case Completes => NodesKeepStranded(s, s.(counter := s.counter + 1), pid, j);
    case Goes(q) =>
      var t := s.(counter := s.counter + 1, processes := s.processes + [q]);
      assert t.processes[k] == s.processes[k] && StrandedAt(t, k, j);
      QueueKeepsStranded(env, t, pid, j);
  }

  lemma DeletionKeepsStranded(env: Env, s: Server, pid: int, j: int, other: int)
    requires Staged(s) && Stranded(s, pid, j) && other != pid
    ensures Stranded(ProcessStoppedSlot(env, s, other).s, pid, j)
  {
    var i := FindProcess(s.processes, other);
    if i < |s.processes| {
      var signals := FreeSignals(Cur(s.processes[i]));
      var t := s.(processes := RemoveAt(s.processes, i), nodes := FreeNodes(s.nodes, signals));
      forall m | 0 <= m < |s.nodes| && s.nodes[m].None? ensures t.nodes[m].None? { FreeNodesAt(s.nodes, signals, m); }
      RemoveKeepsStranded(s, t, pid, j, i);
      QueueKeepsStranded(env, t, pid, j);
    }
  }

  lemma RewindKeepsStranded(env: Env, s: Server, pid: int, j: int, other: int, stage: nat)
    requires Staged(s) && Stranded(s, pid, j) && other != pid
    ensures Stranded(StageRequestedSlot(env, s, other, stage).s, pid, j)
  {
    var i := FindProcess(s.processes, other);
    if i < |s.processes| && stage <= s.processes[i].current {
      var p := s.processes[i];
      var signals := FreeSignalsOf(p.stages, stage, p.current + 1);
      var t := s.(nodes := FreeNodes(s.nodes, signals));
      forall m | 0 <= m < |s.nodes| && s.nodes[m].None? ensures t.nodes[m].None? { FreeNodesAt(s.nodes, signals, m); }
      NodesKeepStranded(s, t, pid, j);
      var q := Rebuild(env, Rewind(p, stage));
      OtherKeepsStranded(t, pid, j, i, q);
      SettleKeepsStranded(env, t, pid, j, i, q);
    }
  }

  lemma StopKeepsStranded(s: Server, pid: int, j: int, other: int, sel: Selector)
    requires Staged(s) && Stranded(s, pid, j)
    ensures Stranded(StopRequestedSlot(s, other, sel).s, pid, j)
  {
    var i := FindProcess(s.processes, other);
    if i < |s.processes| {
      var signals := StopSignals(Cur(s.processes[i]), sel);
      var t := SetProcess(s, i, StopModules(s.processes[i], sel));
      SetKeepsStranded(s, pid, j, i, StopModules(s.processes[i], sel));
      var nodes := StopNodes(s.nodes, s.processes, signals);
      forall m | 0 <= m < |s.nodes| && s.nodes[m].None?
        ensures nodes[m].None?
      {
        StopNodesAt(s.nodes, s.processes, signals, m);
      }
      NodesKeepStranded(t, t.(nodes := nodes), pid, j);
    }
  }

  lemma OtherKeepsStranded(s: Server, pid: int, j: int, i: nat, q: Process)
    requires Stranded(s, pid, j) && i < |s.processes| && s.processes[i].id != pid
    ensures Stranded(SetProcess(s, i, q), pid, j)
  {
    var t := SetProcess(s, i, q);
    var k :| 0 <= k < |s.processes| && s.processes[k].id == pid && StrandedAt(s, k, j);
    assert t.processes[k].id == pid && StrandedAt(t, k, j);
  }

  /** Nothing but stopping its process or asking for a stage of it ends a stranded module. */
  lemma StepKeepsStranded(env: Env, s: Server, pid: int, j: int, e: Event)
    requires Staged(s) && Stranded(s, pid, j) && Enabled(s, e) && !Releases(e, pid)
    ensures Stranded(Step(env, s, e).s, pid, j)
  {
    hide Stranded, Bounce, Close, StopReplySlot, ProcessArrivesSlot, ProcessStoppedSlot, StageRequestedSlot,
         StopRequestedSlot;
    match e
    case ModulesListed(n, names) =>
      var t := SetNode(s, n, s.nodes[n].value.(modules := Installed(names)));
      NodesKeepStranded(s, t, pid, j);
      QueueKeepsStranded(env, t, pid, j);
    case PrepareFailed(n, name, code) =>
      if Addressed(s, n) {
        if code == MD5_DIFFERS {
          var i := Addressee(s, n);
          var t := SetProcess(s, i, ClearJob(s.processes[i], n));
          ClearKeepsStranded(s, pid, j, n);
          NodesKeepStranded(t, ClearNode(t, n), pid, j);
        } else {
          BounceKeepsStranded(env, s, pid, j, n, name);
        }
      }
    case StartFailed(n, name) => if Addressed(s, n) { BounceKeepsStranded(env, s, pid, j, n, name); }
    case EndSucceeded(n, name) => if Addressed(s, n) { CloseKeepsStranded(env, s, pid, j, n, name, Done); }
    case EndFailed(n, name, code) =>
      if Addressed(s, n) {
        if code == OUTPUT_MISSING {
          BounceKeepsStranded(env, s, pid, j, n, name);
        } else if code == MAX_TIME_REACHED {
          CloseKeepsStranded(env, s, pid, j, n, name, Stoped);
        } else {
          NodesKeepStranded(s, ClearNode(s, n), pid, j);
          QueueKeepsStranded(env, ClearNode(s, n), pid, j);
        }
      }
    case StopReply(n, name, success) => ReplyKeepsStranded(env, s, pid, j, n, name, success);
    case NodeLost(n) => LossKeepsStranded(s, pid, j, n);
    case NodeArrives => NodesKeepStranded(s, Step(env, s, e).s, pid, j);
    case ModulesDropped(n) => NodesKeepStranded(s, Step(env, s, e).s, pid, j);
    case PrepareSucceeded(n, name) =>
    case StartSucceeded(n, name) =>
    case FailedCleared => NodesKeepStranded(s, Step(env, s, e).s, pid, j);
    case ProcessArrives(stages, start) => ArrivalKeepsStranded(env, s, pid, j, stages, start);
    case ProcessStopped(other) => DeletionKeepsStranded(env, s, pid, j, other);
    case StageRequested(other, stage) => RewindKeepsStranded(env, s, pid, j, other, stage);
    case StopRequested(other, sel) => StopKeepsStranded(s, pid, j, other, sel);
  }

  lemma LossKeepsStranded(s: Server, pid: int, j: int, n: nat)
    requires Staged(s) && Stranded(s, pid, j)
    ensures Stranded(NodeLostSlot(s, n).s, pid, j)
  {
    if Live(s.nodes, n) {
      var t := NodeLostSlot(s, n).s;
      var k :| 0 <= k < |s.processes| && s.processes[k].id == pid && StrandedAt(s, k, j);
      ClearedSameId(s.processes[k], n);
      assert t.processes[k] == ClearJob(s.processes[k], n) && StrandedAt(t, k, j);
    }
  }

  /** A module whose node is lost while it is being stopped holds its process in its stage
      in every run, until the process is stopped or one of its stages is asked for. */
  lemma {:induction false} StrandedForGood(trace: seq<Server>, moves: seq<Move>, k: nat, l: nat, pid: int, j: int)
    requires IsRun(trace, moves) && k <= l < |trace| && Stranded(trace[k], pid, j)
    requires forall m :: k <= m < l ==> !Releases(moves[m].event, pid)
    ensures Stranded(trace[l], pid, j)
    decreases l
  {
    hide Stranded, Step, Enabled;
    if k < l {
      StrandedForGood(trace, moves, k, l - 1, pid, j);
      assert CanMove(trace[l - 1], moves[l - 1]);
      StepKeepsStranded(moves[l - 1].env, trace[l - 1], pid, j, moves[l - 1].event);
    }
  }
}
