/** Whole runs of the server: the stage barrier in all of them, and exactly when nodes stay
    owned and the queue loop stays inside its vector. */
module Runs {
  import opened Wrappers
  import opened Entities
  import opened ProcessSteps
  import opened ServerSteps
  import opened Ownership
  import opened OwnershipSlots
  import opened Guarantees
  import opened QueuePass

  datatype Move = Move(env: Env, event: Event)

  /** The server before anything happened. */
  const FRESH := Server([], [], 0, [])

  predicate CanMove(s: Server, move: Move) {
    Staged(s) && Enabled(s, move.event)
  }

  /** What a move makes of a server. */
  function After(s: Server, move: Move): (r: Result)
    requires CanMove(s, move)
    ensures Staged(r.s)
  {
    Step(move.env, s, move.event)
  }

  /** A run from the empty server: every move is one the node threads and the callers let
      through.  When the queue loop leaves its vector the run ends. */
  ghost predicate IsRun(trace: seq<Server>, moves: seq<Move>) {
    && |trace| == |moves| + 1
    && trace[0] == FRESH
    && (forall k :: 0 <= k < |moves| ==> CanMove(trace[k], moves[k]) && trace[k + 1] == After(trace[k], moves[k]).s)
    && (forall k :: 0 <= k < |moves| - 1 ==> !After(trace[k], moves[k]).strayed)
  }

  // ---- the stage barrier ------------------------------------------------------------

  predicate Idling(st: Stage) {
    forall j :: 0 <= j < |st| ==> !Active(st[j])
  }

  /** The stages from the lowest one up to the current one are over, and nothing runs
      outside the current one. */
  predicate InOrder(p: Process) {
    && p.current < |p.stages|
    && (forall k :: 0 <= k < |p.stages| && k != p.current ==> Idling(p.stages[k]))
    && (forall k :: p.start <= k < p.current ==> StageDone(p.stages[k]))
  }

  predicate AllInOrder(s: Server) {
    && (forall i :: 0 <= i < |s.processes| ==> InOrder(s.processes[i]))
    && (forall k :: 0 <= k < |s.finished| ==> Complete(s.finished[k]))
  }

  /** Only the current stage changes. */
  lemma WithCurInOrder(p: Process, st: Stage)
    requires InOrder(p)
    ensures InOrder(WithCur(p, st))
  {
    var q := WithCur(p, st);
    forall k | 0 <= k < |q.stages| && k != q.current ensures q.stages[k] == p.stages[k] {}
  }

  lemma CheckInOrder(env: Env, p: Process)
    requires InOrder(p)
    ensures match CheckStage(env, p) case Goes(q) => InOrder(q) case Completes => Complete(p)
  {
    if StageDone(Cur(p)) && p.current + 1 < |p.stages| {
      var q := p.(current := p.current + 1);
      assert Idling(p.stages[p.current]);
      WithCurInOrder(q, RebuildFrom(env, q.id, Cur(q), 0));
    }
  }

  lemma AskInOrder(env: Env, s: Server, i: nat, n: nat)
    requires AllInOrder(s) && i < |s.processes| && Free(s.nodes, n)
    ensures Staged(s) && AllInOrder(Ask(env, s, i, n))
  {
    hide InOrder, Complete;
    assert Staged(s) by { OrderIsStaged(s); }
    CheckInOrder(env, s.processes[i]);
    match GiveJob(env, s.processes[i], n, s.nodes[n].value)
    case Gives(q', name) =>
      var q := CheckStage(env, s.processes[i]).p;
      WithCurInOrder(q, StartModule(Cur(q), FirstEligible(Cur(q), s.nodes[n].value), n));
    case Refuses(q) =>
    case Ends =>
  }

  lemma OrderIsStaged(s: Server)
    requires AllInOrder(s)
    ensures Staged(s)
  {
  }

  lemma QueueInOrder(env: Env, s: Server)
    requires AllInOrder(s)
    ensures Staged(s) && AllInOrder(CheckQueue(env, s).s)
  {
    OrderIsStaged(s);
    var R := (t: Server, u: Server) => AllInOrder(t) ==> AllInOrder(u);
    forall t, k: nat, m: nat ensures AskRelates(env, R, t, k, m) {
      if AllInOrder(t) && k < |t.processes| && Free(t.nodes, m) { AskInOrder(env, t, k, m); }
    }
    PassRelates(env, R, s, 0, 0);
  }

  lemma SettleInOrder(env: Env, s: Server, i: nat, p: Process)
    requires AllInOrder(s) && i < |s.processes| && InOrder(p)
    ensures Staged(s) && AllInOrder(Settle(env, s, i, p).s)
  {
    OrderIsStaged(s);
    CheckInOrder(env, p);
    if CheckStage(env, p).Completes? { QueueInOrder(env, Retire(s, i, p)); }
  }

  lemma RewindInOrder(p: Process, stage: nat)
    requires InOrder(p) && stage <= p.current
    ensures InOrder(Rewind(p, stage))
  {
    var q := Rewind(p, stage);
    forall k | 0 <= k < |q.stages| && k != q.current ensures Idling(q.stages[k]) {
      assert q.stages[k] == if stage <= k <= p.current then ResetStage(p.stages[k]) else p.stages[k];
    }
    forall k | q.start <= k < q.current ensures StageDone(q.stages[k]) { assert q.stages[k] == p.stages[k]; }
  }

  lemma BounceInOrder(env: Env, s: Server, n: nat, name: string)
    requires AllInOrder(s) && Staged(s) && Addressed(s, n)
    ensures AllInOrder(Bounce(env, s, n, name).s)
  {
    var i := Addressee(s, n);
    WithCurInOrder(s.processes[i], ClearStage(Cur(s.processes[i]), n));
    QueueInOrder(env, ClearNode(AddFailed(SetProcess(s, i, ClearJob(s.processes[i], n)), n, name), n));
  }

  lemma CloseInOrder(env: Env, s: Server, n: nat, name: string, to: Status)
    requires AllInOrder(s) && Staged(s) && Addressed(s, n)
    ensures AllInOrder(Close(env, s, n, name, to).s)
  {
    var i := Addressee(s, n);
    var q := Credit(s.processes[i], n, name, to);
    WithCurInOrder(s.processes[i], CreditStage(Cur(s.processes[i]), n, name, to));
    SettleInOrder(env, s, i, q);
    var r := Settle(env, s, i, q);
    if !r.strayed { QueueInOrder(env, ClearNode(r.s, n)); }
  }

  lemma ReplyInOrder(env: Env, s: Server, n: nat, name: string, success: bool)
    requires AllInOrder(s) && Staged(s)
    ensures AllInOrder(StopReplySlot(env, s, n, name, success).s)
  {
    if Live(s.nodes, n) {
      if !Addressed(s, n) {
        QueueInOrder(env, ClearNode(s, n));
      } else if success {
        CloseInOrder(env, s, n, name, Done);
      } else {
        var i := Addressee(s, n);
        var q := Credit(s.processes[i], n, name, Done);
        WithCurInOrder(s.processes[i], CreditStage(Cur(s.processes[i]), n, name, Done));
        SettleInOrder(env, ClearNode(s, n), i, q);
        var r := Settle(env, ClearNode(s, n), i, q);
        if !r.strayed { QueueInOrder(env, r.s); }
      }
    }
  }

  lemma ArrivalInOrder(env: Env, s: Server, stages: seq<Stage>, start: nat)
    requires AllInOrder(s) && Staged(s) && start < |stages| && FreshPlan(stages)
    ensures AllInOrder(ProcessArrivesSlot(env, s, stages, start).s)
  {
    var p := Process(s.counter, stages, start, start);
    assert InOrder(p);
    WithCurInOrder(p, RebuildFrom(env, p.id, Cur(p), 0));
    CheckInOrder(env, Rebuild(env, p));
    match CheckStage(env, Rebuild(env, p))
    case Completes =>
    case Goes(q) => QueueInOrder(env, s.(counter := s.counter + 1, processes := s.processes + [q]));
  }

  lemma DeletionInOrder(env: Env, s: Server, pid: int)
    requires AllInOrder(s) && Staged(s)
    ensures AllInOrder(ProcessStoppedSlot(env, s, pid).s)
  {
    var i := FindProcess(s.processes, pid);
    if i < |s.processes| {
      var nodes := FreeNodes(s.nodes, FreeSignals(Cur(s.processes[i])));
      QueueInOrder(env, s.(processes := RemoveAt(s.processes, i), nodes := nodes));
    }
  }

  lemma StageRequestInOrder(env: Env, s: Server, pid: int, stage: nat)
    requires AllInOrder(s) && Staged(s)
    ensures AllInOrder(StageRequestedSlot(env, s, pid, stage).s)
  {
    var i := FindProcess(s.processes, pid);
    if i < |s.processes| && stage <= s.processes[i].current {
      var p := s.processes[i];
      var freed := FreeNodes(s.nodes, FreeSignalsOf(p.stages, stage, p.current + 1));
      RewindInOrder(p, stage);
      var q := Rewind(p, stage);
      WithCurInOrder(q, RebuildFrom(env, q.id, Cur(q), 0));
      SettleInOrder(env, s.(nodes := freed), i, Rebuild(env, q));
    }
  }

  lemma StopInOrder(s: Server, pid: int, sel: Selector)
    requires AllInOrder(s) && Staged(s)
    ensures AllInOrder(StopRequestedSlot(s, pid, sel).s)
  {
    var i := FindProcess(s.processes, pid);
    if i < |s.processes| { WithCurInOrder(s.processes[i], StopStage(Cur(s.processes[i]), sel)); }
  }

  /** Every step keeps the barrier, whatever is reported and in whatever order. */
  lemma StepInOrder(env: Env, s: Server, e: Event)
    requires AllInOrder(s) && Staged(s) && Enabled(s, e)
    ensures AllInOrder(Step(env, s, e).s)
  {
    hide InOrder, Complete, Bounce, Close, StopReplySlot, ProcessArrivesSlot, ProcessStoppedSlot,
         StageRequestedSlot, StopRequestedSlot;
    match e
    case ModulesListed(n, names) => QueueInOrder(env, SetNode(s, n, s.nodes[n].value.(modules := Installed(names))));
    case PrepareFailed(n, name, code) =>
      if Addressed(s, n) {
        if code == MD5_DIFFERS {
          var p := s.processes[Addressee(s, n)];
          WithCurInOrder(p, ClearStage(Cur(p), n));
        } else {
          BounceInOrder(env, s, n, name);
        }
      }
    case StartFailed(n, name) => if Addressed(s, n) { BounceInOrder(env, s, n, name); }
    case EndSucceeded(n, name) => if Addressed(s, n) { CloseInOrder(env, s, n, name, Done); }
    case EndFailed(n, name, code) =>
      if Addressed(s, n) {
        if code == OUTPUT_MISSING {
          BounceInOrder(env, s, n, name);
        } else if code == MAX_TIME_REACHED {
          CloseInOrder(env, s, n, name, Stoped);
        } else {
          QueueInOrder(env, ClearNode(s, n));
        }
      }
    case StopReply(n, name, success) => ReplyInOrder(env, s, n, name, success);
    case NodeLost(n) =>
      if Live(s.nodes, n) {
        forall k | 0 <= k < |s.processes| ensures InOrder(ClearJob(s.processes[k], n)) {
          WithCurInOrder(s.processes[k], ClearStage(Cur(s.processes[k]), n));
        }
      }
    case NodeArrives =>
    case ModulesDropped(n) =>
    case PrepareSucceeded(n, name) =>
    case StartSucceeded(n, name) =>
    case FailedCleared =>
    case ProcessArrives(stages, start) => ArrivalInOrder(env, s, stages, start);
    case ProcessStopped(pid) => DeletionInOrder(env, s, pid);
    case StageRequested(pid, stage) => StageRequestInOrder(env, s, pid, stage);
    case StopRequested(pid, sel) => StopInOrder(s, pid, sel);
  }

  lemma {:induction false} RunsInOrder(trace: seq<Server>, moves: seq<Move>, k: nat)
    requires IsRun(trace, moves) && k < |trace|
    ensures AllInOrder(trace[k])
  {
    hide Step, InOrder, Complete, Enabled;
    if k > 0 {
      RunsInOrder(trace, moves, k - 1);
      assert CanMove(trace[k - 1], moves[k - 1]);
      StepInOrder(moves[k - 1].env, trace[k - 1], moves[k - 1].event);
    }
  }

  /** The stage barrier over all runs, without any assumption on the reports: every stage a
      process has passed is over, nothing runs outside its current stage, and a process is
      completed only with all its stages, from the lowest one it was in, over. */
  lemma RunsRespectStages(trace: seq<Server>, moves: seq<Move>, k: nat)
    requires IsRun(trace, moves) && k < |trace|
    ensures forall p, l :: p in trace[k].processes && p.start <= l < p.current < |p.stages| ==> StageDone(p.stages[l])
    ensures forall p, l :: p in trace[k].processes && 0 <= l < |p.stages| && l != p.current ==>
              forall j :: 0 <= j < |p.stages[l]| ==> !Active(p.stages[l][j])
    ensures forall p, l :: p in trace[k].finished && p.start <= l < |p.stages| ==> StageDone(p.stages[l])
  {
    RunsInOrder(trace, moves, k);
    forall p, l | p in trace[k].processes && 0 <= l < |p.stages| && l != p.current ensures Idling(p.stages[l]) {
      assert InOrder(p);
    }
    forall p, l | p in trace[k].finished && p.start <= l < |p.stages| ensures StageDone(p.stages[l]) {
      assert Complete(p);
      if l == p.current { assert StageDone(p.stages[p.current]); }
    }
  }

  // ---- ownership --------------------------------------------------------------------

  lemma FreshIsOwned()
    ensures Owned(FRESH, -1)
  {
  }

  /** Exclusive ownership holds in every state of a run up to its first irregular event. */
  lemma {:induction false} RunsStayOwned(trace: seq<Server>, moves: seq<Move>, k: nat)
    requires IsRun(trace, moves) && k < |trace|
    requires forall l :: 0 <= l < k ==> Regular(trace[l], moves[l].event)
    ensures Owned(trace[k], -1) || (k == |moves| > 0 && After(trace[k - 1], moves[k - 1]).strayed)
  {
    hide Step, Owned, Enabled, Regular;
    if k == 0 {
      FreshIsOwned();
    } else {
      RunsStayOwned(trace, moves, k - 1);
      assert CanMove(trace[k - 1], moves[k - 1]);
      StepKeeps(moves[k - 1].env, trace[k - 1], moves[k - 1].event);
    }
  }

  /** A run that stays inside the vector keeps ownership throughout exactly if all its
      events are regular. */
  lemma RunsStayOwnedIff(trace: seq<Server>, moves: seq<Move>)
    requires IsRun(trace, moves)
    requires forall k :: 0 <= k < |moves| ==> !After(trace[k], moves[k]).strayed
    ensures (forall k :: 0 <= k < |trace| ==> Owned(trace[k], -1))
       <==> (forall k :: 0 <= k < |moves| ==> Regular(trace[k], moves[k].event))
  {
    hide Step, Owned, Enabled, Regular;
    if forall k :: 0 <= k < |trace| ==> Owned(trace[k], -1) {
      forall k | 0 <= k < |moves| ensures Regular(trace[k], moves[k].event) {
        assert Owned(trace[k], -1) && Owned(trace[k + 1], -1) && CanMove(trace[k], moves[k]);
        StepKeepsIff(moves[k].env, trace[k], moves[k].event);
      }
    } else if forall k :: 0 <= k < |moves| ==> Regular(trace[k], moves[k].event) {
      forall k | 0 <= k < |trace| ensures Owned(trace[k], -1) { RunsStayOwned(trace, moves, k); }
    }
  }

  // ---- staying inside the vector ----------------------------------------------------

  /** Stage `k` of the process, with its lists expanded, has something to do. */
  predicate HasWork(env: Env, p: Process, k: nat) {
    k < |p.stages| ==> !StageDone(RebuildFrom(env, p.id, p.stages[k], 0))
  }

  /** If the stage of the process is over, the next one has something to do. */
  predicate GoesOn(env: Env, p: Process)
    requires p.current < |p.stages|
  {
    StageDone(Cur(p)) ==> HasWork(env, p, p.current + 1)
  }

  /** No stage is over when it becomes current, and a stop request leaves some module of
      its process unfinished. */
  predicate Lively(env: Env, s: Server, e: Event)
    requires Staged(s)
  {
    match e
    case EndSucceeded(n, name) => Addressed(s, n) ==> GoesOn(env, Credit(s.processes[Addressee(s, n)], n, name, Done))
    case EndFailed(n, name, code) =>
      Addressed(s, n) && code == MAX_TIME_REACHED ==> GoesOn(env, Credit(s.processes[Addressee(s, n)], n, name, Stoped))
    case StopReply(n, name, success) =>
      Addressed(s, n) ==> GoesOn(env, Credit(s.processes[Addressee(s, n)], n, name, Done))
    case ProcessArrives(stages, start) => HasWork(env, Process(s.counter, stages, start, start), start)
    case StageRequested(pid, stage) =>
      var i := FindProcess(s.processes, pid);
      i < |s.processes| && stage <= s.processes[i].current ==> HasWork(env, Rewind(s.processes[i], stage), stage)
    case StopRequested(pid, sel) =>
      var i := FindProcess(s.processes, pid);
      i < |s.processes| ==> !StageDone(StopStage(Cur(s.processes[i]), sel))
    case _ => true
  }

  predicate Stays(r: Result) {
    !r.strayed && NoneDone(r.s)
  }

  lemma QueueStays(env: Env, s: Server)
    requires NoneDone(s)
    ensures Stays(CheckQueue(env, s))
  {
    PassStays(env, s, 0, 0);
  }

  lemma OthersNotDone(s: Server, i: nat, q: Process)
    requires NoneDone(s) && i < |s.processes| && q.current < |q.stages|
    ensures !StageDone(Cur(q)) ==> NoneDone(SetProcess(s, i, q))
    ensures NoneDone(s.(processes := RemoveAt(s.processes, i)))
  {
  }

  lemma SettleStays(env: Env, s: Server, i: nat, p: Process)
    requires NoneDone(s) && i < |s.processes| && p.current < |p.stages| && GoesOn(env, p)
    ensures Stays(Settle(env, s, i, p))
  {
    OthersNotDone(s, i, p);
    match CheckStage(env, p)
    case Goes(q) =>
      OthersNotDone(s, i, q);
      if StageDone(Cur(p)) { assert Cur(q) == RebuildFrom(env, p.id, p.stages[p.current + 1], 0); }
    case Completes => QueueStays(env, Retire(s, i, p));
  }

  lemma ClearedNotDone(p: Process, n: nat)
    requires p.current < |p.stages| && !StageDone(Cur(p))
    ensures !StageDone(Cur(ClearJob(p, n)))
  {
    var j :| 0 <= j < |Cur(p)| && !Over(Cur(p)[j]);
    assert !Over(Cur(ClearJob(p, n))[j]);
  }

  lemma BounceStays(env: Env, s: Server, n: nat, name: string)
    requires NoneDone(s) && Addressed(s, n)
    ensures Stays(Bounce(env, s, n, name))
  {
    var i := Addressee(s, n);
    ClearedNotDone(s.processes[i], n);
    QueueStays(env, ClearNode(AddFailed(SetProcess(s, i, ClearJob(s.processes[i], n)), n, name), n));
  }

  lemma CloseStays(env: Env, s: Server, n: nat, name: string, to: Status)
    requires NoneDone(s) && Addressed(s, n) && GoesOn(env, Credit(s.processes[Addressee(s, n)], n, name, to))
    ensures Stays(Close(env, s, n, name, to))
  {
    var i := Addressee(s, n);
    SettleStays(env, s, i, Credit(s.processes[i], n, name, to));
    QueueStays(env, ClearNode(Settle(env, s, i, Credit(s.processes[i], n, name, to)).s, n));
  }

  lemma ReplyStays(env: Env, s: Server, n: nat, name: string, success: bool)
    requires NoneDone(s) && Lively(env, s, StopReply(n, name, success))
    ensures Stays(StopReplySlot(env, s, n, name, success))
  {
    if Live(s.nodes, n) {
      if !Addressed(s, n) {
        QueueStays(env, ClearNode(s, n));
      } else if success {
        CloseStays(env, s, n, name, Done);
      } else {
        var i := Addressee(s, n);
        SettleStays(env, ClearNode(s, n), i, Credit(s.processes[i], n, name, Done));
        QueueStays(env, Settle(env, ClearNode(s, n), i, Credit(s.processes[i], n, name, Done)).s);
      }
    }
  }

  lemma ArrivalStays(env: Env, s: Server, stages: seq<Stage>, start: nat)
    requires NoneDone(s) && start < |stages| && HasWork(env, Process(s.counter, stages, start, start), start)
    ensures Stays(ProcessArrivesSlot(env, s, stages, start))
  {
    var q := Rebuild(env, Process(s.counter, stages, start, start));
    assert Cur(q) == RebuildFrom(env, q.id, stages[start], 0);
    QueueStays(env, s.(counter := s.counter + 1, processes := s.processes + [q]));
  }

  lemma DeletionStays(env: Env, s: Server, pid: int)
    requires NoneDone(s)
    ensures Stays(ProcessStoppedSlot(env, s, pid))
  {
    var i := FindProcess(s.processes, pid);
    if i < |s.processes| {
      OthersNotDone(s, i, s.processes[i]);
      var nodes := FreeNodes(s.nodes, FreeSignals(Cur(s.processes[i])));
      QueueStays(env, s.(processes := RemoveAt(s.processes, i), nodes := nodes));
    }
  }

  lemma StageRequestStays(env: Env, s: Server, pid: int, stage: nat)
    requires NoneDone(s) && Lively(env, s, StageRequested(pid, stage))
    ensures Stays(StageRequestedSlot(env, s, pid, stage))
  {
    var i := FindProcess(s.processes, pid);
    if i < |s.processes| && stage <= s.processes[i].current {
      var p := s.processes[i];
      var freed := FreeNodes(s.nodes, FreeSignalsOf(p.stages, stage, p.current + 1));
      var q := Rebuild(env, Rewind(p, stage));
      assert Cur(q) == RebuildFrom(env, p.id, Rewind(p, stage).stages[stage], 0);
      SettleStays(env, s.(nodes := freed), i, q);
    }
  }

  lemma StopStays(s: Server, pid: int, sel: Selector)
    requires NoneDone(s)
    requires var i := FindProcess(s.processes, pid);
             i < |s.processes| ==> !StageDone(StopStage(Cur(s.processes[i]), sel))
    ensures Stays(StopRequestedSlot(s, pid, sel))
  {
    var i := FindProcess(s.processes, pid);
    if i < |s.processes| { OthersNotDone(s, i, StopModules(s.processes[i], sel)); }
  }

  lemma LossStays(s: Server, n: nat)
    requires NoneDone(s)
    ensures Stays(NodeLostSlot(s, n))
  {
    if Live(s.nodes, n) {
      forall k | 0 <= k < |s.processes| ensures !StageDone(Cur(ClearJob(s.processes[k], n))) {
        ClearedNotDone(s.processes[k], n);
      }
    }
  }

  lemma PreparationStays(env: Env, s: Server, n: nat, name: string, code: int)
    requires NoneDone(s)
    ensures Stays(PrepareFailedSlot(env, s, n, name, code))
  {
    if Addressed(s, n) {
      if code == MD5_DIFFERS { ClearedNotDone(s.processes[Addressee(s, n)], n); } else { BounceStays(env, s, n, name); }
    }
  }

  /** A lively step stays inside the vector and finishes no stage that it does not leave. */
  lemma StepStays(env: Env, s: Server, e: Event)
    requires NoneDone(s) && Enabled(s, e) && Lively(env, s, e)
    ensures Stays(Step(env, s, e))
  {
    hide Bounce, Close, StopReplySlot, PrepareFailedSlot, NodeLostSlot, ProcessArrivesSlot,
         ProcessStoppedSlot, StageRequestedSlot, StopRequestedSlot;
    match e
    case ModulesListed(n, names) => QueueStays(env, SetNode(s, n, s.nodes[n].value.(modules := Installed(names))));
    case PrepareFailed(n, name, code) => PreparationStays(env, s, n, name, code);
    case StartFailed(n, name) => if Addressed(s, n) { BounceStays(env, s, n, name); }
    case EndSucceeded(n, name) => if Addressed(s, n) { CloseStays(env, s, n, name, Done); }
    case EndFailed(n, name, code) =>
      if Addressed(s, n) {
        if code == OUTPUT_MISSING {
          BounceStays(env, s, n, name);
        } else if code == MAX_TIME_REACHED {
          CloseStays(env, s, n, name, Stoped);
        } else {
          QueueStays(env, ClearNode(s, n));
        }
      }
    case StopReply(n, name, success) => ReplyStays(env, s, n, name, success);
    case NodeLost(n) => LossStays(s, n);
    case NodeArrives =>
    case ModulesDropped(n) =>
    case PrepareSucceeded(n, name) =>
    case StartSucceeded(n, name) =>
    case FailedCleared =>
    case ProcessArrives(stages, start) => ArrivalStays(env, s, stages, start);
    case ProcessStopped(pid) => DeletionStays(env, s, pid);
    case StageRequested(pid, stage) => StageRequestStays(env, s, pid, stage);
    case StopRequested(pid, sel) => StopStays(s, pid, sel);
  }

  /** When no stage is over as it becomes current and every stop request leaves an unfinished
      module, no step of the run leaves the vector, whatever else happens in it. */
  lemma {:induction false} RunsDoNotStray(trace: seq<Server>, moves: seq<Move>, k: nat)
    requires IsRun(trace, moves) && k < |trace|
    requires forall l :: 0 <= l < k ==> Staged(trace[l]) && Lively(moves[l].env, trace[l], moves[l].event)
    ensures NoneDone(trace[k])
    ensures forall l :: 0 <= l < k ==> !After(trace[l], moves[l]).strayed
  {
    hide Step, Enabled, Lively;
    if k > 0 {
      RunsDoNotStray(trace, moves, k - 1);
      assert CanMove(trace[k - 1], moves[k - 1]);
      StepStays(moves[k - 1].env, trace[k - 1], moves[k - 1].event);
    }
  }

  /** So ownership holds in every state of a run whose events are regular and lively. */
  lemma LivelyRunsStayOwned(trace: seq<Server>, moves: seq<Move>, k: nat)
    requires IsRun(trace, moves) && k < |trace|
    requires forall l :: 0 <= l < k ==> Regular(trace[l], moves[l].event)
    requires forall l :: 0 <= l < k ==> Staged(trace[l]) && Lively(moves[l].env, trace[l], moves[l].event)
    ensures Owned(trace[k], -1) && NoneDone(trace[k])
  {
    hide Step, Owned, Enabled, Lively, Regular;
    RunsDoNotStray(trace, moves, k);
    RunsStayOwned(trace, moves, k);
  }

  // ---- a run that breaks ownership --------------------------------------------------

  const INPUTS := Env(map[], {(0, "p.m")})
  const NEW_MODULE := StageModule("p.m", Wait, -1, false, -1)

  /** A node connects, a process of one module arrives and runs on it, the module is stopped
      by name while a file of it is in flight, and the transfer fails. */
  const COMMANDS := [Move(INPUTS, NodeArrives), Move(INPUTS, ModulesListed(0, ["p.m"])),
                     Move(INPUTS, ProcessArrives([[NEW_MODULE]], 0)), Move(INPUTS, StopRequested(0, ByName("p.m"))),
                     Move(INPUTS, PrepareFailed(0, "p.m", TRANSFER_FAILED))]

  function OneNode(modules: seq<NodeModule>): Server {
    Server([], [Some(Node(false, false, -1, "", modules))], 0, [])
  }

  const ONE_READY := OneNode([NodeModule("p.m", false)])

  lemma NodeIsReady()
    ensures CanMove(FRESH, COMMANDS[0]) && After(FRESH, COMMANDS[0]) == Result(OneNode([]), false)
    ensures CanMove(OneNode([]), COMMANDS[1]) && After(OneNode([]), COMMANDS[1]) == Result(ONE_READY, false)
  {
    var s, ms := OneNode([]), [NodeModule("p.m", false)];
    assert Installed(["p.m"]) == ms;
    assert SetNode(s, 0, s.nodes[0].value.(modules := ms)) == ONE_READY;
  }

  const ARRIVED := Process(0, [[NEW_MODULE]], 0, 0)

  lemma ArrivedGoes()
    ensures Rebuild(INPUTS, ARRIVED) == ARRIVED && CheckStage(INPUTS, ARRIVED) == Goes(ARRIVED)
  {
    assert Cur(ARRIVED) == [NEW_MODULE] && !Over(Cur(ARRIVED)[0]);
    assert RebuildFrom(INPUTS, 0, [NEW_MODULE], 0) == [NEW_MODULE];
    assert ARRIVED.stages[0 := [NEW_MODULE]] == ARRIVED.stages;
  }

  lemma ArrivedGives(node: Node)
    requires node.modules == [NodeModule("p.m", false)]
    ensures GiveJob(INPUTS, ARRIVED, 0, node) == Gives(Lone(false).processes[0], "p.m")
  {
    ArrivedGoes();
    assert CanRun(node, "p.m") by { assert node.modules[0].name == "p.m"; }
    assert FirstEligible([NEW_MODULE], node) == 0;
    var q := Lone(false).processes[0];
    assert StartModule([NEW_MODULE], 0, 0) == Cur(q) && ARRIVED.stages[0 := Cur(q)] == q.stages;
    assert WithCur(ARRIVED, StartModule([NEW_MODULE], 0, 0)) == q;
  }

  lemma ModuleIsStarted()
    ensures CanMove(ONE_READY, COMMANDS[2]) && After(ONE_READY, COMMANDS[2]) == Result(Lone(false), false)
  {
    hide GiveJob, CheckStage, Rebuild;
    ArrivedGoes();
    var t := ONE_READY.(counter := 1, processes := [ARRIVED]);
    assert ONE_READY.processes + [ARRIVED] == [ARRIVED];
    ArrivedGives(t.nodes[0].value);
    assert Ask(INPUTS, t, 0, 0) == Lone(false);
    assert Pass(INPUTS, t, 0, 0) == Pass(INPUTS, Lone(false), 0, 1) == Pass(INPUTS, Lone(false), 1, 0);
  }

  lemma OneIsStopped(m: StageModule, sel: Selector, nodes: seq<Option<Node>>, ps: seq<Process>)
    requires Selected(m, sel) && m.status.Started?
    ensures StopSignals([m], sel) == [m.node] && StopNodes(nodes, ps, [m.node]) == StopNode(nodes, ps, m.node)
  {
    assert [m][..0] == [] && [m.node][..0] == [];
  }

  lemma ModuleIsStopped()
    ensures CanMove(Lone(false), COMMANDS[3]) && After(Lone(false), COMMANDS[3]) == Result(Lone(true), false)
  {
    hide StopNodes, StopSignals;
    var s, t, sel := Lone(false), Lone(true), ByName("p.m");
    var p := s.processes[0];
    assert Cur(p) == [Cur(p)[0]];
    OneIsStopped(Cur(p)[0], sel, s.nodes, s.processes);
    assert StopNode(s.nodes, s.processes, 0) == t.nodes;
    assert StopStage(Cur(p), sel) == Cur(t.processes[0]);
    assert StopModules(p, sel) == t.processes[0];
    assert SetProcess(s, 0, t.processes[0]) == t.(nodes := s.nodes);
  }

  lemma TransferFails()
    ensures CanMove(Lone(true), COMMANDS[4]) && !After(Lone(true), COMMANDS[4]).strayed
    ensures Owned(Lone(true), -1) && !Owned(After(Lone(true), COMMANDS[4]).s, -1)
  {
    hide Owned, PrepareFailedSlot;
    LoneIsOwned(true);
    FailedTransferLeaksModule(INPUTS);
  }

  /** This run is possible, stays inside the vector, and ends with a free node on which a
      module is still being stopped. */
  lemma FailedTransferBreaksRun()
    ensures exists trace :: && IsRun(trace, COMMANDS)
                            && (forall k :: 0 <= k < |COMMANDS| ==> !After(trace[k], COMMANDS[k]).strayed)
                            && Owned(trace[4], -1) && !Owned(trace[5], -1)
  {
    hide Owned, CanMove, After, OneNode, Lone;
    NodeIsReady();
    ModuleIsStarted();
    ModuleIsStopped();
    TransferFails();
    var trace := [FRESH, OneNode([]), ONE_READY, Lone(false), Lone(true), After(Lone(true), COMMANDS[4]).s];
    assert IsRun(trace, COMMANDS);
  }
}
