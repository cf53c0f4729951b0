/** What the steps of the server do to modules and nodes, said of their fields. */
module Effects {
  import opened Wrappers
  import opened Entities
  import opened ProcessSteps
  import opened ServerSteps
  import opened OwnershipSlots

  // ---- going back to a stage --------------------------------------------------------

  /** Every module of stage `k` waits again, and nothing else about it has changed. */
  predicate WaitsAgain(p: Process, q: Process, k: int)
    requires 0 <= k < |p.stages| == |q.stages|
  {
    |q.stages[k]| == |p.stages[k]| &&
    forall j :: 0 <= j < |p.stages[k]| ==>
      q.stages[k][j] == StageModule(p.stages[k][j].name, Wait, -1, p.stages[k][j].isList, p.stages[k][j].elem)
  }

  /** All stages from the requested to the current one, those in between as well, wait again;
      the others are as they were. */
  lemma RewindMeans(p: Process, stage: nat)
    requires stage <= p.current < |p.stages|
    ensures var q := Rewind(p, stage);
            && q.id == p.id && q.current == stage && |q.stages| == |p.stages|
            && q.start <= stage && q.start <= p.start && (q.start == stage || q.start == p.start)
            && (forall k :: stage <= k <= p.current ==> WaitsAgain(p, q, k))
            && (forall k :: 0 <= k < |p.stages| && (k < stage || p.current < k) ==> q.stages[k] == p.stages[k])
  {
    var q := Rewind(p, stage);
    forall k | stage <= k <= p.current ensures WaitsAgain(p, q, k) { assert q.stages[k] == ResetStage(p.stages[k]); }
  }

  /** A module of these stages was running on node `m`. */
  predicate RanOn(p: Process, first: int, m: int) {
    exists k :: first <= k <= p.current && 0 <= k < |p.stages| && StartedOn(p.stages[k], m)
  }

  /** Exactly the busy nodes that ran a module of the stages left are told to stop. */
  predicate TellsNodes(s: Server, nodes: seq<Option<Node>>, p: Process, first: int) {
    && |nodes| == |s.nodes|
    && forall m :: 0 <= m < |s.nodes| ==>
         nodes[m] == if s.nodes[m].Some? && s.nodes[m].value.busy && RanOn(p, first, m)
                     then Some(s.nodes[m].value.(stopping := true)) else s.nodes[m]
  }

  lemma FreeingTellsNodes(s: Server, p: Process, stage: nat)
    requires stage <= p.current < |p.stages|
    ensures TellsNodes(s, FreeNodes(s.nodes, FreeSignalsOf(p.stages, stage, p.current + 1)), p, stage)
  {
    var signals := FreeSignalsOf(p.stages, stage, p.current + 1);
    forall m | 0 <= m < |s.nodes|
      ensures FreeNodes(s.nodes, signals)[m] ==
              if s.nodes[m].Some? && s.nodes[m].value.busy && RanOn(p, stage, m)
              then Some(s.nodes[m].value.(stopping := true)) else s.nodes[m]
    {
      FreeNodesAt(s.nodes, signals, m);
      FreeSignalsOfExact(p.stages, stage, p.current + 1, m);
    }
  }

  predicate AllOver(st: Stage) {
    forall j :: 0 <= j < |st| ==> st[j].status == Done || st[j].status == Stoped
  }

  /** The process is in the requested stage again, expanded, or in the next one if there is
      nothing to do in it; every stage after that, up to the one it was in, waits again. */
  predicate IsBackIn(env: Env, p: Process, q: Process, stage: nat) {
    && q.id == p.id && |q.stages| == |p.stages| && 0 <= stage <= p.current < |p.stages| && q.current < |p.stages|
    && q.current == (if AllOver(RebuildFrom(env, p.id, ResetStage(p.stages[stage]), 0)) then stage + 1 else stage)
    && (forall k :: stage <= k <= q.current && k <= p.current ==>
          q.stages[k] == RebuildFrom(env, p.id, ResetStage(p.stages[k]), 0))
    && (forall k :: q.current < k <= p.current && k < |p.stages| ==> WaitsAgain(p, q, k))
    && (forall k :: 0 <= k < |p.stages| && (k < stage || p.current < k) && k != q.current ==>
          q.stages[k] == p.stages[k])
  }

  lemma BackIn(env: Env, p: Process, stage: nat)
    requires stage <= p.current < |p.stages|
    ensures match CheckStage(env, Rebuild(env, Rewind(p, stage)))
            case Goes(q) => IsBackIn(env, p, q, stage)
            case Completes => true
  {
    hide RebuildFrom;
    RewindMeans(p, stage);
    match CheckStage(env, Rebuild(env, Rewind(p, stage)))
    case Completes =>
    case Goes(q) =>
      forall k | q.current < k <= p.current ensures WaitsAgain(p, q, k) {
        assert WaitsAgain(p, Rewind(p, stage), k) && q.stages[k] == Rewind(p, stage).stages[k];
      }
  }

  /** The requested stage is the last one and has nothing but empty lists. */
  predicate NothingToDo(env: Env, p: Process, stage: nat)
    requires stage < |p.stages|
  {
    stage == |p.stages| - 1 && AllOver(RebuildFrom(env, p.id, ResetStage(p.stages[stage]), 0))
  }

  /** Process `i` has left the queue with a place in the history; the others keep theirs. */
  predicate HasLeft(s: Server, t: Server, i: nat) {
    && i < |s.processes| && t == s.(processes := s.processes[..i] + s.processes[i + 1..], nodes := t.nodes,
                                    finished := t.finished)
    && |t.finished| == |s.finished| + 1 && t.finished[..|s.finished|] == s.finished
    && t.finished[|s.finished|].id == s.processes[i].id
  }

  /** gotoStage: the process is back in the stage, or completes if there is nothing to do;
      either way the nodes of the modules it ran are told. */
  lemma StageRequestMeans(env: Env, s: Server, pid: int, stage: nat)
    requires Staged(s)
    requires var i := FindProcess(s.processes, pid); i < |s.processes| && stage <= s.processes[i].current
    ensures var i, r := FindProcess(s.processes, pid), StageRequestedSlot(env, s, pid, stage);
            var p := s.processes[i];
            if NothingToDo(env, p, stage) then
              exists t :: Staged(t) && HasLeft(s, t, i) && TellsNodes(s, t.nodes, p, stage) && r == CheckQueue(env, t)
            else
              && !r.strayed && r.s == s.(processes := r.s.processes, nodes := r.s.nodes)
              && |r.s.processes| == |s.processes| && r.s.processes == s.processes[i := r.s.processes[i]]
              && IsBackIn(env, p, r.s.processes[i], stage) && TellsNodes(s, r.s.nodes, p, stage)
  {
    hide RebuildFrom, FreeNodes, FreeSignalsOf, TellsNodes, IsBackIn, CheckQueue;
    var i := FindProcess(s.processes, pid);
    var p := s.processes[i];
    FreeingTellsNodes(s, p, stage);
    BackIn(env, p, stage);
    var q := Rebuild(env, Rewind(p, stage));
    var u := s.(nodes := FreeNodes(s.nodes, FreeSignalsOf(p.stages, stage, p.current + 1)));
    assert Cur(q) == RebuildFrom(env, p.id, ResetStage(p.stages[stage]), 0);
    match CheckStage(env, q)
    case Goes(q') =>
      assert StageRequestedSlot(env, s, pid, stage).s == SetProcess(u, i, q');
    case Completes =>
      assert StageRequestedSlot(env, s, pid, stage) == CheckQueue(env, Retire(u, i, q));
      assert HasLeft(s, Retire(u, i, q), i);
  }

  // ---- stopping by name and by list element -----------------------------------------

  /** A module a stop request names: one that waits is stopped, one that runs is being stopped,
      and any other stays as it is. */
  predicate IsStopped(m: StageModule, x: StageModule) {
    && x.name == m.name && x.node == m.node && x.isList == m.isList && x.elem == m.elem
    && x.status == (if m.status == Wait then Stoped else if m.status == Started then Stopping else m.status)
  }

  /** Of the current stage exactly the named modules are stopped. */
  ghost predicate StopsModules(p: Process, q: Process, named: StageModule -> bool) {
    && p.current < |p.stages| == |q.stages| && q == p.(stages := q.stages)
    && (forall k :: 0 <= k < |p.stages| && k != p.current ==> q.stages[k] == p.stages[k])
    && |q.stages[p.current]| == |p.stages[p.current]|
    && (forall j :: 0 <= j < |Cur(p)| ==>
          if named(Cur(p)[j]) then IsStopped(Cur(p)[j], Cur(q)[j]) else Cur(q)[j] == Cur(p)[j])
  }

  /** A named module runs on node `m`. */
  ghost predicate NamedOn(p: Process, named: StageModule -> bool, m: int) {
    p.current < |p.stages| &&
    exists j :: 0 <= j < |Cur(p)| && named(Cur(p)[j]) && Cur(p)[j].status == Started && Cur(p)[j].node == m
  }

  /** Exactly the nodes that ran a named module are told to stop, each if its process is known. */
  ghost predicate StopsNodes(s: Server, nodes: seq<Option<Node>>, p: Process, named: StageModule -> bool) {
    && |nodes| == |s.nodes|
    && forall m :: 0 <= m < |s.nodes| ==>
         nodes[m] == if s.nodes[m].Some? && NamedOn(p, named, m) && Known(s, s.nodes[m].value.processId)
                     then Some(s.nodes[m].value.(stopping := true)) else s.nodes[m]
  }

  predicate Known(s: Server, pid: int) {
    exists i :: 0 <= i < |s.processes| && s.processes[i].id == pid
  }

  ghost predicate StopsExactly(s: Server, t: Server, i: nat, named: StageModule -> bool) {
    && i < |s.processes| == |t.processes| && t == s.(processes := s.processes[i := t.processes[i]], nodes := t.nodes)
    && StopsModules(s.processes[i], t.processes[i], named) && StopsNodes(s, t.nodes, s.processes[i], named)
  }

  lemma StopMeans(s: Server, pid: int, sel: Selector, named: StageModule -> bool)
    requires Staged(s) && FindProcess(s.processes, pid) < |s.processes|
    requires forall m :: named(m) <==> Selected(m, sel)
    ensures StopsExactly(s, StopRequestedSlot(s, pid, sel).s, FindProcess(s.processes, pid), named)
  {
    var i := FindProcess(s.processes, pid);
    var p, t, signals := s.processes[i], StopRequestedSlot(s, pid, sel).s, StopSignals(Cur(s.processes[i]), sel);
    forall m | 0 <= m < |s.nodes|
      ensures t.nodes[m] == if s.nodes[m].Some? && NamedOn(p, named, m) && Known(s, s.nodes[m].value.processId)
                            then Some(s.nodes[m].value.(stopping := true)) else s.nodes[m]
    {
      StopNodesAt(s.nodes, s.processes, signals, m);
      StopSignalsExact(Cur(p), sel, m);
      SelectedIsNamed(p, sel, named, m);
    }
    NamedStop(p, sel, named);
  }

  lemma SelectedIsNamed(p: Process, sel: Selector, named: StageModule -> bool, m: int)
    requires p.current < |p.stages| && forall x :: named(x) <==> Selected(x, sel)
    ensures StopSelectedOn(Cur(p), sel, m) <==> NamedOn(p, named, m)
  {
    if StopSelectedOn(Cur(p), sel, m) {
      var j :| 0 <= j < |Cur(p)| && Selected(Cur(p)[j], sel) && Cur(p)[j].status.Started? && Cur(p)[j].node == m;
      assert named(Cur(p)[j]);
    }
  }

  lemma NamedStop(p: Process, sel: Selector, named: StageModule -> bool)
    requires p.current < |p.stages| && forall x :: named(x) <==> Selected(x, sel)
    ensures StopsModules(p, StopModules(p, sel), named)
  {
  }

  lemma StopByNameMeans(s: Server, pid: int, name: string)
    requires Staged(s) && FindProcess(s.processes, pid) < |s.processes|
    ensures StopsExactly(s, StopRequestedSlot(s, pid, ByName(name)).s, FindProcess(s.processes, pid),
                         (m: StageModule) => m.name == name)
  {
    StopMeans(s, pid, ByName(name), (m: StageModule) => m.name == name);
  }

  /** Only elements of a list, those with the given number. */
  lemma StopListModuleMeans(s: Server, pid: int, name: string, num: int)
    requires Staged(s) && FindProcess(s.processes, pid) < |s.processes|
    ensures StopsExactly(s, StopRequestedSlot(s, pid, ByListNum(name, num)).s, FindProcess(s.processes, pid),
                         (m: StageModule) => m.name == name && m.isList && m.elem == num)
  {
    StopMeans(s, pid, ByListNum(name, num), (m: StageModule) => m.name == name && m.isList && m.elem == num);
  }

  // ---- what becomes of a module -----------------------------------------------------

  /** Module `j` of stage `c` of process `pid`, listed or completed, is `m`. */
  predicate IsNow(s: Server, pid: int, c: int, j: int, m: StageModule) {
    || (exists i :: 0 <= i < |s.processes| && HasAt(s.processes[i], pid, c, j, m))
    || (exists i :: 0 <= i < |s.finished| && HasAt(s.finished[i], pid, c, j, m))
  }

  predicate HasAt(p: Process, pid: int, c: int, j: int, m: StageModule) {
    p.id == pid && 0 <= c <= p.current < |p.stages| && 0 <= j < |p.stages[c]| && p.stages[c][j] == m
  }

  lemma CheckKeepsOver(env: Env, p: Process, pid: int, c: int, j: int, m: StageModule)
    requires p.current < |p.stages| && HasAt(p, pid, c, j, m)
    ensures match CheckStage(env, p) case Goes(q) => HasAt(q, pid, c, j, m) case Completes => true
  {
    if StageDone(Cur(p)) && p.current + 1 < |p.stages| {
      assert Rebuild(env, p.(current := p.current + 1)).stages[c] == p.stages[c];
    }
  }

  /** Replacing process `i` by one that still has the module. */
  lemma SetKeepsOver(s: Server, t: Server, i: nat, pid: int, c: int, j: int, m: StageModule)
    requires IsNow(s, pid, c, j, m) && i < |s.processes| && t.finished == s.finished
    requires |t.processes| == |s.processes| && t.processes == s.processes[i := t.processes[i]]
    requires HasAt(s.processes[i], pid, c, j, m) ==> HasAt(t.processes[i], pid, c, j, m)
    ensures IsNow(t, pid, c, j, m)
  {
    if k :| 0 <= k < |s.processes| && HasAt(s.processes[k], pid, c, j, m) {
      assert HasAt(t.processes[k], pid, c, j, m);
    }
  }

  lemma RetireKeepsOver(s: Server, i: nat, p: Process, pid: int, c: int, j: int, m: StageModule)
    requires i < |s.processes| && IsNow(SetProcess(s, i, p), pid, c, j, m)
    ensures IsNow(Retire(s, i, p), pid, c, j, m)
  {
    var u, t := SetProcess(s, i, p), Retire(s, i, p);
    if k :| 0 <= k < |u.processes| && HasAt(u.processes[k], pid, c, j, m) {
      if k == i {
        assert t.finished[|s.finished|] == p;
      } else {
        assert t.processes[if k < i then k else k - 1] == u.processes[k];
      }
    } else {
      var k :| 0 <= k < |u.finished| && HasAt(u.finished[k], pid, c, j, m);
      assert t.finished[k] == u.finished[k];
    }
  }

  lemma AskKeepsOver(env: Env, s: Server, i: nat, n: nat, pid: int, c: int, j: int, m: StageModule)
    requires Staged(s) && i < |s.processes| && Free(s.nodes, n) && IsNow(s, pid, c, j, m) && Over(m)
    ensures IsNow(Ask(env, s, i, n), pid, c, j, m)
  {
    var p, t := s.processes[i], Ask(env, s, i, n);
    if HasAt(p, pid, c, j, m) { CheckKeepsOver(env, p, pid, c, j, m); }
    match GiveJob(env, p, n, s.nodes[n].value)
    case Gives(q', name) =>
      var q := CheckStage(env, p).p;
      assert t.processes[i] == q';
      SetKeepsOver(s, t, i, pid, c, j, m);
    case Refuses(q) => SetKeepsOver(s, t, i, pid, c, j, m);
    case Ends =>
      assert SetProcess(s, i, p) == s;
      RetireKeepsOver(s, i, p, pid, c, j, m);
  }

  lemma QueueKeepsOver(env: Env, s: Server, pid: int, c: int, j: int, m: StageModule)
    requires Staged(s) && IsNow(s, pid, c, j, m) && Over(m)
    ensures IsNow(CheckQueue(env, s).s, pid, c, j, m)
  {
    hide IsNow;
    var R := (t: Server, u: Server) => IsNow(t, pid, c, j, m) ==> IsNow(u, pid, c, j, m);
    forall t, k: nat, l: nat ensures AskRelates(env, R, t, k, l) {
      if Staged(t) && IsNow(t, pid, c, j, m) && k < |t.processes| && Free(t.nodes, l) {
        AskKeepsOver(env, t, k, l, pid, c, j, m);
      }
    }
    PassRelates(env, R, s, 0, 0);
  }

  lemma SettleKeepsOver(env: Env, s: Server, i: nat, p: Process, pid: int, c: int, j: int, m: StageModule)
    requires Staged(s) && i < |s.processes| && p.current < |p.stages| && HasAt(p, pid, c, j, m) && Over(m)
    ensures IsNow(Settle(env, s, i, p).s, pid, c, j, m)
  {
    CheckKeepsOver(env, p, pid, c, j, m);
    match CheckStage(env, p)
    case Goes(q) => assert SetProcess(s, i, q).processes[i] == q;
    case Completes =>
      assert SetProcess(s, i, p).processes[i] == p;
      RetireKeepsOver(s, i, p, pid, c, j, m);
      QueueKeepsOver(env, Retire(s, i, p), pid, c, j, m);
  }

  lemma NodesKeepOver(s: Server, t: Server, pid: int, c: int, j: int, m: StageModule)
    requires IsNow(s, pid, c, j, m) && t.processes == s.processes && t.finished == s.finished
    ensures IsNow(t, pid, c, j, m)
  {
  }

  /** The module the report is about: on the node, under the name, not over yet. */
  predicate IsReported(s: Server, n: nat, name: string, j: nat)
    requires Staged(s) && Addressed(s, n)
  {
    var st := Cur(s.processes[Addressee(s, n)]);
    && j < |st| && st[j].node == n && st[j].name == name && st[j].status != Done && st[j].status != Stoped
  }

  lemma CloseMeans(env: Env, s: Server, n: nat, name: string, to: Status, j: nat)
    requires Staged(s) && Addressed(s, n) && IsReported(s, n, name, j) && (to == Done || to == Stoped)
    ensures var p := s.processes[Addressee(s, n)];
            IsNow(Close(env, s, n, name, to).s, p.id, p.current, j, Cur(p)[j].(status := to))
  {
    var i := Addressee(s, n);
    var p := s.processes[i];
    var q, m := Credit(p, n, name, to), Cur(p)[j].(status := to);
    assert Cur(q)[j] == m;
    SettleKeepsOver(env, s, i, q, p.id, p.current, j, m);
    var r := Settle(env, s, i, q);
    if !r.strayed {
      NodesKeepOver(r.s, ClearNode(r.s, n), p.id, p.current, j, m);
      QueueKeepsOver(env, ClearNode(r.s, n), p.id, p.current, j, m);
    }
  }

  lemma StopReplyMeans(env: Env, s: Server, n: nat, name: string, success: bool, j: nat)
    requires Staged(s) && Addressed(s, n) && IsReported(s, n, name, j)
    ensures var p := s.processes[Addressee(s, n)];
            IsNow(StopReplySlot(env, s, n, name, success).s, p.id, p.current, j, Cur(p)[j].(status := Done))
  {
    if success {
      CloseMeans(env, s, n, name, Done, j);
    } else {
      var i := Addressee(s, n);
      var p := s.processes[i];
      var q, m := Credit(p, n, name, Done), Cur(p)[j].(status := Done);
      assert Cur(q)[j] == m;
      SettleKeepsOver(env, ClearNode(s, n), i, q, p.id, p.current, j, m);
      var r := Settle(env, ClearNode(s, n), i, q);
      if !r.strayed { QueueKeepsOver(env, r.s, p.id, p.current, j, m); }
    }
  }

  /** The status a report gives its module for good: done at the end and after a stop, stopped
      when its time is up. */
  function Verdict(e: Event): Status
    requires e.EndSucceeded? || e.EndFailed? || e.StopReply?
  {
    if e.EndFailed? then Stoped else Done
  }

  /** What a report about a module makes of it, whether the process goes on, moves on, or
      completes with it, and whatever the queue loop does then. */
  lemma ReportMeans(env: Env, s: Server, e: Event, j: nat)
    requires Staged(s) && Enabled(s, e)
    requires e.EndSucceeded? || (e.EndFailed? && e.code == 2) || e.StopReply?
    requires Addressed(s, e.n) && IsReported(s, e.n, e.name, j)
    ensures var p := s.processes[Addressee(s, e.n)];
            IsNow(Step(env, s, e).s, p.id, p.current, j, Cur(p)[j].(status := Verdict(e)))
  {
    hide Close, StopReplySlot, IsNow;
    match e
    case EndSucceeded(n, name) => CloseMeans(env, s, n, name, Done, j);
    case EndFailed(n, name, code) => CloseMeans(env, s, n, name, Stoped, j);
    case StopReply(n, name, success) => StopReplyMeans(env, s, n, name, success, j);
  }

  // ---- failures ---------------------------------------------------------------------

  predicate FirstNamed(ms: seq<NodeModule>, name: string, k: int) {
    0 <= k < |ms| && ms[k].name == name && forall l :: 0 <= l < k ==> ms[l].name != name
  }

  /** The first entry of that name is marked failed, and nothing else changes. */
  lemma {:induction false} MarkFailedMeans(ms: seq<NodeModule>, name: string, k: nat)
    requires k < |ms|
    ensures MarkFailed(ms, name)[k] == NodeModule(ms[k].name, ms[k].failed || FirstNamed(ms, name, k))
  {
    if ms[0].name != name && k > 0 {
      MarkFailedMeans(ms[1..], name, k - 1);
      if FirstNamed(ms[1..], name, k - 1) {
        forall l | 0 <= l < k ensures ms[l].name != name { if l > 0 { assert ms[1..][l - 1] == ms[l]; } }
      }
    }
  }

  /** The modules a process runs on node `n` wait again; nothing else about it has changed. */
  predicate WaitsFor(p: Process, q: Process, n: int) {
    && p.current < |p.stages| == |q.stages| && q == p.(stages := q.stages)
    && (forall k :: 0 <= k < |p.stages| && k != p.current ==> q.stages[k] == p.stages[k])
    && |q.stages[p.current]| == |p.stages[p.current]|
    && (forall j :: 0 <= j < |Cur(p)| ==>
          var m := Cur(p)[j];
          Cur(q)[j] == if m.node == n && m.status == Started then m.(status := Wait, node := -1) else m)
  }

  /** Process `i` runs nothing on node `n` any more, the node is free, and it has these
      modules; nothing else has changed. */
  predicate GaveUp(s: Server, t: Server, i: nat, n: nat, modules: seq<NodeModule>) {
    && i < |s.processes| == |t.processes| && n < |s.nodes|
    && t == s.(processes := s.processes[i := t.processes[i]], nodes := t.nodes)
    && WaitsFor(s.processes[i], t.processes[i], n)
    && t.nodes == s.nodes[n := Some(Node(false, false, -1, "", modules))]
  }

  /** A failed preparation because the module files differ does not bar the module from the
      node, and nothing is given out. */
  lemma DifferentFilesMean(env: Env, s: Server, n: nat, name: string)
    requires Staged(s) && Addressed(s, n)
    ensures var r := PrepareFailedSlot(env, s, n, name, 6);
            !r.strayed && GaveUp(s, r.s, Addressee(s, n), n, s.nodes[n].value.modules)
  {
  }

  /** Any other failed preparation, a failed start and an end without output: the first entry
      of the module's name is barred, and the queue is checked. */
  lemma BounceMeans(env: Env, s: Server, n: nat, name: string)
    requires Staged(s) && Addressed(s, n)
    ensures exists t :: && Staged(t) && GaveUp(s, t, Addressee(s, n), n, MarkFailed(s.nodes[n].value.modules, name))
                        && Bounce(env, s, n, name) == CheckQueue(env, t)
  {
    var i := Addressee(s, n);
    var t := ClearNode(AddFailed(SetProcess(s, i, ClearJob(s.processes[i], n)), n, name), n);
    assert GaveUp(s, t, i, n, MarkFailed(s.nodes[n].value.modules, name));
  }

  /** Which failures do that. */
  lemma FailureMeans(env: Env, s: Server, e: Event)
    requires Staged(s) && Enabled(s, e)
    requires (e.PrepareFailed? && e.code != 6) || e.StartFailed? || (e.EndFailed? && e.code == 0)
    requires Addressed(s, e.n)
    ensures exists t :: && Staged(t)
                        && GaveUp(s, t, Addressee(s, e.n), e.n, MarkFailed(s.nodes[e.n].value.modules, e.name))
                        && Step(env, s, e) == CheckQueue(env, t)
  {
    hide CheckQueue, Bounce, MarkFailed;
    BounceMeans(env, s, e.n, e.name);
  }

  /** A lost node: its running modules wait again in every process, and it is gone. */
  lemma LossMeans(s: Server, n: nat)
    requires Staged(s) && Live(s.nodes, n)
    ensures var t := NodeLostSlot(s, n).s;
            && t == s.(processes := t.processes, nodes := s.nodes[n := None]) && |t.processes| == |s.processes|
            && forall i :: 0 <= i < |s.processes| ==> WaitsFor(s.processes[i], t.processes[i], n)
  {
  }

  // ---- processes that come and go ---------------------------------------------------

  /** The process that has come is the last of the queue, with the next number, in its first
      stage or, when that was over, in the one after it; the stages it has been in are
      expanded. */
  predicate Joins(env: Env, s: Server, t: Server, stages: seq<Stage>, start: nat) {
    && t == s.(counter := s.counter + 1, processes := t.processes)
    && |t.processes| == |s.processes| + 1 && t.processes[..|s.processes|] == s.processes
    && var q := t.processes[|s.processes|];
    && q.id == s.counter && q.start == start < |q.stages| == |stages| && q.current < |stages|
    && q.current == (if AllOver(RebuildFrom(env, q.id, stages[start], 0)) then start + 1 else start)
    && forall k :: 0 <= k < |stages| ==>
         q.stages[k] == if start <= k <= q.current then RebuildFrom(env, q.id, stages[k], 0) else stages[k]
  }

  /** It is refused if its first stage is its last one and over, and the number is used all the
      same. */
  lemma ArrivalMeans(env: Env, s: Server, stages: seq<Stage>, start: nat)
    requires Staged(s) && start < |stages|
    ensures var r := ProcessArrivesSlot(env, s, stages, start);
            if start == |stages| - 1 && AllOver(RebuildFrom(env, s.counter, stages[start], 0))
            then r == Result(s.(counter := s.counter + 1), false)
            else exists t :: Staged(t) && Joins(env, s, t, stages, start) && r == CheckQueue(env, t)
  {
    hide RebuildFrom, CheckQueue, Joins;
    var p := Rebuild(env, Process(s.counter, stages, start, start));
    match CheckStage(env, p)
    case Completes =>
    case Goes(q) =>
      JoinsLast(env, s, stages, start, q);
      var t := s.(counter := s.counter + 1, processes := s.processes + [q]);
      assert ProcessArrivesSlot(env, s, stages, start) == CheckQueue(env, t);
  }

  lemma JoinsLast(env: Env, s: Server, stages: seq<Stage>, start: nat, q: Process)
    requires start < |stages| && CheckStage(env, Rebuild(env, Process(s.counter, stages, start, start))) == Goes(q)
    ensures Joins(env, s, s.(counter := s.counter + 1, processes := s.processes + [q]), stages, start)
  {
    hide RebuildFrom;
  }

  /** A process that is stopped leaves the queue, the others keep their order, and exactly the
      busy nodes that ran one of its modules are told to stop. */
  predicate Leaves(s: Server, t: Server, i: nat) {
    && i < |s.processes| && t == s.(processes := s.processes[..i] + s.processes[i + 1..], nodes := t.nodes)
    && TellsNodes(s, t.nodes, s.processes[i], s.processes[i].current)
  }

  lemma DeletionMeans(env: Env, s: Server, pid: int)
    requires Staged(s) && FindProcess(s.processes, pid) < |s.processes|
    ensures exists t :: && Staged(t) && Leaves(s, t, FindProcess(s.processes, pid))
                        && ProcessStoppedSlot(env, s, pid) == CheckQueue(env, t)
  {
    hide CheckQueue, TellsNodes;
    var i := FindProcess(s.processes, pid);
    var t := s.(processes := RemoveAt(s.processes, i), nodes := FreeNodes(s.nodes, FreeSignals(Cur(s.processes[i]))));
    LeavingTellsNodes(s, s.processes[i]);
    assert ProcessStoppedSlot(env, s, pid) == CheckQueue(env, t);
  }

  lemma LeavingTellsNodes(s: Server, p: Process)
    requires p.current < |p.stages|
    ensures TellsNodes(s, FreeNodes(s.nodes, FreeSignals(Cur(p))), p, p.current)
  {
    forall m | 0 <= m < |s.nodes|
      ensures FreeNodes(s.nodes, FreeSignals(Cur(p)))[m] ==
              if s.nodes[m].Some? && s.nodes[m].value.busy && RanOn(p, p.current, m)
              then Some(s.nodes[m].value.(stopping := true)) else s.nodes[m]
    {
      FreeNodesAt(s.nodes, FreeSignals(Cur(p)), m);
      FreeSignalsExact(Cur(p), m);
      assert StartedOn(p.stages[p.current], m) ==> RanOn(p, p.current, m);
    }
  }

  /** The stage check, of the statuses: a process stays while some module is neither done nor
      stopped; then it goes on to the next stage, expanded, if there is one. */
  lemma CheckMeans(env: Env, p: Process)
    requires p.current < |p.stages|
    ensures var open := exists j :: 0 <= j < |Cur(p)| && Cur(p)[j].status != Done && Cur(p)[j].status != Stoped;
            match CheckStage(env, p)
            case Goes(q) =>
              if open then q == p
              else p.current + 1 < |p.stages| &&
                   q == p.(current := p.current + 1, stages := p.stages[p.current + 1 :=
                             RebuildFrom(env, p.id, p.stages[p.current + 1], 0)])
            case Completes => !open && p.current == |p.stages| - 1
  {
    hide RebuildFrom;
  }
}
