/** The order in which the server settles a report about a module, said of the fields, and the
    steps that only change what is known of nodes. */
module Reports {
  import opened Wrappers
  import opened Entities
  import opened ProcessSteps
  import opened ServerSteps
  import opened Effects

  // ---- reports ----------------------------------------------------------------------

  /** Node `n` is free, with the modules it has; nothing else has changed. */
  predicate Idled(s: Server, t: Server, n: nat) {
    && n < |s.nodes| && s.nodes[n].Some?
    && t == s.(nodes := s.nodes[n := Some(Node(false, false, -1, "", s.nodes[n].value.modules))])
  }

  /** Exactly the unfinished modules of that name on node `n` have the status. */
  predicate Credits(p: Process, q: Process, n: int, name: string, to: Status) {
    && p.current < |p.stages| == |q.stages| && q == p.(stages := q.stages)
    && (forall k :: 0 <= k < |p.stages| && k != p.current ==> q.stages[k] == p.stages[k])
    && |q.stages[p.current]| == |p.stages[p.current]|
    && (forall j :: 0 <= j < |Cur(p)| ==>
          var m := Cur(p)[j];
          var reported := m.node == n && m.name == name && m.status != Done && m.status != Stoped;
          Cur(q)[j] == if reported then m.(status := to) else m)
  }

  /** The server with process `i` as the stage check leaves it, or without it. */
  function Replaced(s: Server, i: nat, q: Process, o: Outcome): Server
    requires i < |s.processes|
  {
    match o
    case Goes(q') => s.(processes := s.processes[i := q'])
    case Completes => s.(processes := s.processes[..i] + s.processes[i + 1..], finished := s.finished + [q])
  }

  /** First the credit, then the stage check, with a queue check if the process completes; then
      the node is free, and the queue is checked. */
  ghost predicate CreditsFirst(env: Env, s: Server, r: Result, i: nat, n: nat, name: string, to: Status)
    requires Staged(s) && i < |s.processes|
  {
    exists q :: Credits(s.processes[i], q, n, name, to) &&
                var o := CheckStage(env, q);
                var t := Replaced(s, i, q, o);
                && Staged(t)
                && var between := if o.Completes? then CheckQueue(env, t) else Result(t, false);
                if between.strayed then r == between
                else exists u :: Staged(u) && Idled(between.s, u, n) && r == CheckQueue(env, u)
  }

  /** First the node is free, then the credit and the stage check, with a queue check if the
      process completes, which may give the node out; then another queue check. */
  ghost predicate FreesFirst(env: Env, s: Server, r: Result, i: nat, n: nat, name: string, to: Status)
    requires Staged(s) && i < |s.processes|
  {
    exists q, t :: Credits(s.processes[i], q, n, name, to) && Idled(s, t, n) &&
                   var o := CheckStage(env, q);
                   var u := Replaced(t, i, q, o);
                   && Staged(u)
                   && var between := if o.Completes? then CheckQueue(env, u) else Result(u, false);
                   r == if between.strayed then between else CheckQueue(env, between.s)
  }

  lemma CreditMeans(p: Process, n: int, name: string, to: Status)
    requires p.current < |p.stages|
    ensures Credits(p, Credit(p, n, name, to), n, name, to)
  {
  }

  lemma ReplacedMeans(env: Env, s: Server, i: nat, q: Process)
    requires Staged(s) && i < |s.processes| && q.current < |q.stages|
    ensures var o := CheckStage(env, q);
            var t := Replaced(s, i, q, o);
            Staged(t) && Settle(env, s, i, q) == if o.Completes? then CheckQueue(env, t) else Result(t, false)
  {
    hide CheckQueue, CheckStage;
    match CheckStage(env, q)
    case Goes(q') => GoesStaged(env, q);
    case Completes => assert Replaced(s, i, q, Completes) == Retire(s, i, q);
  }

  lemma GoesStaged(env: Env, q: Process)
    requires q.current < |q.stages| && CheckStage(env, q).Goes?
    ensures CheckStage(env, q).p.current < |CheckStage(env, q).p.stages|
  {
  }

  lemma CloseInOrder(env: Env, s: Server, n: nat, name: string, to: Status)
    requires Staged(s) && Addressed(s, n)
    ensures CreditsFirst(env, s, Close(env, s, n, name, to), Addressee(s, n), n, name, to)
  {
    hide CheckQueue, CheckStage, Replaced, Credits, Settle;
    var i := Addressee(s, n);
    var q := Credit(s.processes[i], n, name, to);
    CreditMeans(s.processes[i], n, name, to);
    ReplacedMeans(env, s, i, q);
    var between := Settle(env, s, i, q);
    if !between.strayed { assert Idled(between.s, ClearNode(between.s, n), n); }
  }

  lemma StopFailureInOrder(env: Env, s: Server, n: nat, name: string)
    requires Staged(s) && Addressed(s, n)
    ensures FreesFirst(env, s, StopReplySlot(env, s, n, name, false), Addressee(s, n), n, name, Done)
  {
    hide CheckQueue, CheckStage, Replaced, Credits, Settle;
    var i := Addressee(s, n);
    var q := Credit(s.processes[i], n, name, Done);
    CreditMeans(s.processes[i], n, name, Done);
    var t := ClearNode(s, n);
    assert Idled(s, t, n);
    ReplacedMeans(env, t, i, q);
  }

  /** The end of a module, its time-out and a successful stop credit before they free the node;
      a failed stop frees it before. */
  lemma ReportsInOrder(env: Env, s: Server, e: Event)
    requires Staged(s) && Enabled(s, e)
    requires e.EndSucceeded? || (e.EndFailed? && e.code == 2) || e.StopReply?
    requires Addressed(s, e.n)
    ensures var i, r := Addressee(s, e.n), Step(env, s, e);
            if e.StopReply? && !e.success then FreesFirst(env, s, r, i, e.n, e.name, Done)
            else CreditsFirst(env, s, r, i, e.n, e.name, Verdict(e))
  {
    hide FreesFirst, CreditsFirst, Close;
    CloseInOrder(env, s, e.n, e.name, Verdict(e));
    StopFailureInOrder(env, s, e.n, e.name);
  }

  /** An end report with another code, and a stop reply whose process is gone: only the node is
      free, and the queue is checked. */
  lemma ReleaseMeans(env: Env, s: Server, e: Event)
    requires Staged(s) && Enabled(s, e)
    requires || (e.EndFailed? && e.code != 0 && e.code != 2 && Addressed(s, e.n))
             || (e.StopReply? && Live(s.nodes, e.n) && !Addressed(s, e.n))
    ensures exists t :: Staged(t) && Idled(s, t, e.n) && Step(env, s, e) == CheckQueue(env, t)
  {
    hide CheckQueue;
    assert Idled(s, ClearNode(s, e.n), e.n);
  }

  /** All other reports to a node that is gone or whose process is unknown are dropped, and so
      are the reports that a preparation or a start has succeeded. */
  lemma DroppedMeans(env: Env, s: Server, e: Event)
    requires Staged(s) && Enabled(s, e)
    requires || e.PrepareSucceeded? || e.StartSucceeded? || (e.StopReply? && !Live(s.nodes, e.n))
             || ((e.PrepareFailed? || e.StartFailed? || e.EndSucceeded? || e.EndFailed?) && !Addressed(s, e.n))
    ensures Step(env, s, e) == Result(s, false)
  {
  }

  /** So are commands for a process that is not in the queue, and for a stage it has not
      reached. */
  lemma CommandsDropped(env: Env, s: Server, e: Event)
    requires Staged(s) && Enabled(s, e) && (e.ProcessStopped? || e.StageRequested? || e.StopRequested?)
    requires || (forall i :: 0 <= i < |s.processes| ==> s.processes[i].id != e.pid)
             || (e.StageRequested? &&
                 exists i :: && 0 <= i < |s.processes| && s.processes[i].id == e.pid && e.stage > s.processes[i].current
                             && forall k :: 0 <= k < i ==> s.processes[k].id != e.pid)
    ensures Step(env, s, e) == Result(s, false)
  {
    var k := FindProcess(s.processes, e.pid);
    if k < |s.processes| && e.StageRequested? {
      var i :| && 0 <= i < |s.processes| && s.processes[i].id == e.pid && e.stage > s.processes[i].current
               && forall k :: 0 <= k < i ==> s.processes[k].id != e.pid;
      assert k == i;
    }
  }

  // ---- nodes ------------------------------------------------------------------------

  /** Node `n` has these modules, and nothing else has changed. */
  predicate Has(s: Server, t: Server, n: nat, modules: seq<NodeModule>) {
    n < |s.nodes| && s.nodes[n].Some? && t == s.(nodes := s.nodes[n := Some(s.nodes[n].value.(modules := modules))])
  }

  /** A node that arrives is free and has no modules; a list of modules replaces the old one,
      with none failed, and the queue is checked; without modules it is not; clearing the
      marks changes the marks of all nodes and nothing else. */
  lemma NodesMean(env: Env, s: Server, e: Event)
    requires Staged(s) && Enabled(s, e)
    ensures var r := Step(env, s, e);
            && (e.NodeArrives? ==> r == Result(s.(nodes := s.nodes + [Some(Node(false, false, -1, "", []))]), false))
            && (e.ModulesListed? ==>
                  exists t, ms :: && Has(s, t, e.n, ms) && Staged(t) && r == CheckQueue(env, t) && |ms| == |e.names|
                                  && forall k :: 0 <= k < |ms| ==> ms[k] == NodeModule(e.names[k], false))
            && (e.ModulesDropped? ==> !r.strayed && Has(s, r.s, e.n, []))
            && (e.FailedCleared? ==>
                  && !r.strayed && r.s == s.(nodes := r.s.nodes) && |r.s.nodes| == |s.nodes|
                  && forall n :: 0 <= n < |s.nodes| ==>
                       r.s.nodes[n].Some? && Unmarked(s.nodes[n].value, r.s.nodes[n].value))
  {
    hide CheckQueue;
    if e.ModulesListed? {
      var ms := Installed(e.names);
      assert Has(s, SetNode(s, e.n, s.nodes[e.n].value.(modules := ms)), e.n, ms);
    }
  }

  predicate Unmarked(a: Node, b: Node) {
    && b == a.(modules := b.modules) && |b.modules| == |a.modules|
    && forall k :: 0 <= k < |a.modules| ==> b.modules[k] == NodeModule(a.modules[k].name, false)
  }
}
