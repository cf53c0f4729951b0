/** The server as a state machine: every slot is one step on server values. */
module ServerSteps {
  import opened Wrappers
  import opened Entities
  import opened ProcessSteps

  /** `strayed` tells that the queue loop indexed the process vector past its end; the
      state is then the one at that moment and nothing more happens. */
  datatype Result = Result(s: Server, strayed: bool)

  /** Every listed process has a current stage. */
  predicate Staged(s: Server) {
    forall i :: 0 <= i < |s.processes| ==> s.processes[i].current < |s.processes[i].stages|
  }

  function SetProcess(s: Server, i: nat, p: Process): Server
    requires i < |s.processes|
  {
    s.(processes := s.processes[i := p])
  }

  function SetNode(s: Server, n: nat, node: Node): Server
    requires n < |s.nodes|
  {
    s.(nodes := s.nodes[n := Some(node)])
  }

  /** delete and remove from the vector, keeping the process in the history if it completed. */
  function Retire(s: Server, i: nat, p: Process): Server
    requires i < |s.processes|
  {
    s.(processes := RemoveAt(s.processes, i), finished := s.finished + [p])
  }

  /** The node vector keeps its size and its live nodes. */
  predicate KeepsNodes(s: Server, t: Server) {
    |t.nodes| == |s.nodes| && forall n :: 0 <= n < |s.nodes| ==> (s.nodes[n].Some? <==> t.nodes[n].Some?)
  }

  // ---- the queue loop ---------------------------------------------------------------

  /** A free node takes a module: busy, process_id and current_module_exec are set. */
  function Occupied(node: Node, pid: int, name: string): Node {
    node.(busy := true, processId := pid, running := name)
  }

  /** The server after process `i` was asked for a job for node `n`. */
  function Ask(env: Env, s: Server, i: nat, n: nat): (t: Server)
    requires Staged(s) && i < |s.processes| && Free(s.nodes, n)
    ensures Staged(t) && KeepsNodes(s, t)
    ensures |t.processes| ==
            if GiveJob(env, s.processes[i], n, s.nodes[n].value).Ends? then |s.processes| - 1 else |s.processes|
  {
    match GiveJob(env, s.processes[i], n, s.nodes[n].value)
    case Gives(q, name) => SetNode(SetProcess(s, i, q), n, Occupied(s.nodes[n].value, q.id, name))
    case Refuses(q) => SetProcess(s, i, q)
    case Ends => Retire(s, i, s.processes[i])
  }

  /** The nested loops from process `i` and node `n` on.  A process that completes is
      removed, the queue is checked again from the start, and the outer loop goes on with
      the same two indices. */
  function Pass(env: Env, s: Server, i: nat, n: nat): (r: Result)
    requires Staged(s)
    ensures Staged(r.s) && KeepsNodes(s, r.s) && |r.s.processes| <= |s.processes|
    decreases |s.processes|, |s.processes| - i, |s.nodes| - n
  {
    if i >= |s.processes| then Result(s, false)
    else if n >= |s.nodes| then Pass(env, s, i + 1, 0)
    else if !Free(s.nodes, n) then Pass(env, s, i, n + 1)
    else
      var t := Ask(env, s, i, n);
      if |t.processes| == |s.processes| then Pass(env, t, i, n + 1)
      else
        var r := Pass(env, t, 0, 0);
        if r.strayed || i >= |r.s.processes| then Result(r.s, true) else Pass(env, r.s, i, n + 1)
  }

  function CheckQueue(env: Env, s: Server): (r: Result)
    requires Staged(s)
    ensures Staged(r.s) && KeepsNodes(s, r.s)
  {
    Pass(env, s, 0, 0)
  }

  function Then(env: Env, r: Result): (t: Result)
    requires Staged(r.s)
    ensures Staged(t.s) && KeepsNodes(r.s, t.s)
  {
    if r.strayed then r else CheckQueue(env, r.s)
  }

  // ---- helpers of the slots ---------------------------------------------------------

  /** getProcessNumById; the vector size stands for -1. */
  function FindProcess(ps: seq<Process>, pid: int): (i: nat)
    ensures i <= |ps|
    ensures i < |ps| ==> ps[i].id == pid
    ensures forall k :: 0 <= k < i ==> ps[k].id != pid
  {
    if ps == [] || ps[0].id == pid then 0 else 1 + FindProcess(ps[1..], pid)
  }

  function Idle(node: Node): Node {
    node.(busy := false, stopping := false, processId := -1, running := "")
  }

  function ClearNode(s: Server, n: nat): Server
    requires Live(s.nodes, n)
  {
    SetNode(s, n, Idle(s.nodes[n].value))
  }

  /** The first module of that name is marked failed. */
  function MarkFailed(ms: seq<NodeModule>, name: string): (r: seq<NodeModule>)
    ensures |r| == |ms|
  {
    if ms == [] then []
    else if ms[0].name == name then [ms[0].(failed := true)] + ms[1..]
    else [ms[0]] + MarkFailed(ms[1..], name)
  }

  function AddFailed(s: Server, n: nat, name: string): Server
    requires Live(s.nodes, n)
  {
    SetNode(s, n, s.nodes[n].value.(modules := MarkFailed(s.nodes[n].value.modules, name)))
  }

  /** What follows a change of process `i` to `p`: the stage check, and the slot for
      processFinished_signal if the process completes. */
  function Settle(env: Env, s: Server, i: nat, p: Process): (r: Result)
    requires Staged(s) && i < |s.processes| && p.current < |p.stages|
    ensures Staged(r.s) && KeepsNodes(s, r.s)
  {
    match CheckStage(env, p)
    case Goes(q) => Result(SetProcess(s, i, q), false)
    case Completes => CheckQueue(env, Retire(s, i, p))
  }

  function StopNode(nodes: seq<Option<Node>>, ps: seq<Process>, n: int): (r: seq<Option<Node>>)
    ensures |r| == |nodes|
  {
    if Live(nodes, n) && FindProcess(ps, nodes[n].value.processId) < |ps|
    then nodes[n := Some(nodes[n].value.(stopping := true))] else nodes
  }

  function StopNodes(nodes: seq<Option<Node>>, ps: seq<Process>, ns: seq<int>): (r: seq<Option<Node>>)
    ensures |r| == |nodes|
  {
    if ns == [] then nodes else StopNode(StopNodes(nodes, ps, ns[..|ns| - 1]), ps, ns[|ns| - 1])
  }

  function FreeNode(nodes: seq<Option<Node>>, n: int): (r: seq<Option<Node>>)
    ensures |r| == |nodes|
  {
    if Live(nodes, n) && nodes[n].value.busy
    then nodes[n := Some(nodes[n].value.(stopping := true))] else nodes
  }

  function FreeNodes(nodes: seq<Option<Node>>, ns: seq<int>): (r: seq<Option<Node>>)
    ensures |r| == |nodes|
  {
    if ns == [] then nodes else FreeNode(FreeNodes(nodes, ns[..|ns| - 1]), ns[|ns| - 1])
  }

  function ClearJobs(ps: seq<Process>, n: int): (r: seq<Process>)
    requires forall i :: 0 <= i < |ps| ==> ps[i].current < |ps[i].stages|
    ensures |r| == |ps|
    ensures forall i :: 0 <= i < |ps| ==> r[i] == ClearJob(ps[i], n)
  {
    seq(|ps|, i requires 0 <= i < |ps| => ClearJob(ps[i], n))
  }

  // ---- the slots --------------------------------------------------------------------

  /** A message about a module from node `n`, or a command from outside. */
  datatype Event =
    | NodeArrives
    | ModulesListed(n: nat, names: seq<string>)
    | ModulesDropped(n: nat)
    | PrepareSucceeded(n: nat, name: string)
    | PrepareFailed(n: nat, name: string, code: int)
    | StartSucceeded(n: nat, name: string)
    | StartFailed(n: nat, name: string)
    | EndSucceeded(n: nat, name: string)
    | EndFailed(n: nat, name: string, code: int)
    | StopReply(n: nat, name: string, success: bool)
    | NodeLost(n: nat)
    | FailedCleared
    | ProcessArrives(stages: seq<Stage>, start: nat)
    | ProcessStopped(pid: int)
    | StageRequested(pid: int, stage: nat)
    | StopRequested(pid: int, sel: Selector)

  /** Codes of prepareModuleFailed: the preparation or a file transfer failed, and the
      module files differ on both sides. */
  const TRANSFER_FAILED := 5
  const MD5_DIFFERS := 6

  /** Codes of endModuleFailed. */
  const OUTPUT_MISSING := 0
  const MAX_TIME_REACHED := 2

  /** A report about a module on node `n` reaches process `i`, or is dropped: the node is
      gone or its process is unknown. */
  predicate Addressed(s: Server, n: nat) {
    Live(s.nodes, n) && FindProcess(s.processes, s.nodes[n].value.processId) < |s.processes|
  }

  function Addressee(s: Server, n: nat): (i: nat)
    requires Addressed(s, n)
    ensures i < |s.processes| && s.processes[i].id == s.nodes[n].value.processId
  {
    FindProcess(s.processes, s.nodes[n].value.processId)
  }

  /** The module goes back to waiting, is barred from the node, and the node is free. */
  function Bounce(env: Env, s: Server, n: nat, name: string): (r: Result)
    requires Staged(s) && Addressed(s, n)
    ensures Staged(r.s)
  {
    var i := Addressee(s, n);
    CheckQueue(env, ClearNode(AddFailed(SetProcess(s, i, ClearJob(s.processes[i], n)), n, name), n))
  }

  /** The module is credited as `to`, then the node is freed. */
  function Close(env: Env, s: Server, n: nat, name: string, to: Status): (r: Result)
    requires Staged(s) && Addressed(s, n)
    ensures Staged(r.s)
  {
    var i := Addressee(s, n);
    var r := Settle(env, s, i, Credit(s.processes[i], n, name, to));
    if r.strayed then r else CheckQueue(env, ClearNode(r.s, n))
  }

  /** endModuleFailed_slot with another code: only the node is freed. */
  function Release(env: Env, s: Server, n: nat): (r: Result)
    requires Staged(s) && Live(s.nodes, n)
    ensures Staged(r.s)
  {
    CheckQueue(env, ClearNode(s, n))
  }

  function EndFailedSlot(env: Env, s: Server, n: nat, name: string, code: int): (r: Result)
    requires Staged(s)
    ensures Staged(r.s)
  {
    if !Addressed(s, n) then Result(s, false)
    else if code == OUTPUT_MISSING then Bounce(env, s, n, name)
    else if code == MAX_TIME_REACHED then Close(env, s, n, name, Stoped)
    else Release(env, s, n)
  }

  function PrepareFailedSlot(env: Env, s: Server, n: nat, name: string, code: int): (r: Result)
    requires Staged(s)
    ensures Staged(r.s)
  {
    if !Addressed(s, n) then Result(s, false)
    else if code == MD5_DIFFERS then
      var i := Addressee(s, n);
      Result(ClearNode(SetProcess(s, i, ClearJob(s.processes[i], n)), n), false)
    else Bounce(env, s, n, name)
  }

  /** stopModuleSuccess_slot credits and then frees the node; stopModuleFailed_slot frees
      it first, so a completion inside may already hand it out again. */
  function StopReplySlot(env: Env, s: Server, n: nat, name: string, success: bool): (r: Result)
    requires Staged(s)
    ensures Staged(r.s)
  {
    if !Live(s.nodes, n) then Result(s, false)
    else if !Addressed(s, n) then Release(env, s, n)
    else if success then Close(env, s, n, name, Done)
    else
      var i := Addressee(s, n);
      Then(env, Settle(env, ClearNode(s, n), i, Credit(s.processes[i], n, name, Done)))
  }

  function NodeLostSlot(s: Server, n: nat): (r: Result)
    requires Staged(s)
    ensures Staged(r.s)
  {
    if !Live(s.nodes, n) then Result(s, false)
    else Result(s.(processes := ClearJobs(s.processes, n), nodes := s.nodes[n := None]), false)
  }

  /** Init of a process: expand the first stage and check it once.  A process that is
      already complete is refused. */
  function ProcessArrivesSlot(env: Env, s: Server, stages: seq<Stage>, start: nat): (r: Result)
    requires Staged(s) && start < |stages|
    ensures Staged(r.s)
  {
    var p := Process(s.counter, stages, start, start);
    match CheckStage(env, Rebuild(env, p))
    case Completes => Result(s.(counter := s.counter + 1), false)
    case Goes(q) => CheckQueue(env, s.(counter := s.counter + 1, processes := s.processes + [q]))
  }

  function ProcessStoppedSlot(env: Env, s: Server, pid: int): (r: Result)
    requires Staged(s)
    ensures Staged(r.s)
  {
    var i := FindProcess(s.processes, pid);
    if i == |s.processes| then Result(s, false)
    else
      var p := s.processes[i];
      CheckQueue(env, s.(processes := RemoveAt(s.processes, i), nodes := FreeNodes(s.nodes, FreeSignals(Cur(p)))))
  }

  function StageRequestedSlot(env: Env, s: Server, pid: int, stage: nat): (r: Result)
    requires Staged(s)
    ensures Staged(r.s)
  {
    var i := FindProcess(s.processes, pid);
    if i == |s.processes| || stage > s.processes[i].current then Result(s, false)
    else
      var p := s.processes[i];
      var freed := FreeNodes(s.nodes, FreeSignalsOf(p.stages, stage, p.current + 1));
      Settle(env, s.(nodes := freed), i, Rebuild(env, Rewind(p, stage)))
  }

  function StopRequestedSlot(s: Server, pid: int, sel: Selector): (r: Result)
    requires Staged(s)
    ensures Staged(r.s)
  {
    var i := FindProcess(s.processes, pid);
    if i == |s.processes| then Result(s, false)
    else
      var p := s.processes[i];
      var t := SetProcess(s, i, StopModules(p, sel));
      Result(t.(nodes := StopNodes(s.nodes, s.processes, StopSignals(Cur(p), sel))), false)
  }

  function ClearFailed(ms: seq<NodeModule>): (r: seq<NodeModule>)
    ensures |r| == |ms|
    ensures forall k :: 0 <= k < |ms| ==> r[k] == ms[k].(failed := false)
  {
    seq(|ms|, k requires 0 <= k < |ms| => ms[k].(failed := false))
  }

  function FailedClearedSlot(s: Server): Server
    requires forall n :: 0 <= n < |s.nodes| ==> s.nodes[n].Some?
  {
    s.(nodes := seq(|s.nodes|, n requires 0 <= n < |s.nodes| =>
                      Some(s.nodes[n].value.(modules := ClearFailed(s.nodes[n].value.modules)))))
  }

  function Installed(names: seq<string>): (r: seq<NodeModule>)
    ensures |r| == |names|
    ensures forall k :: 0 <= k < |names| ==> r[k] == NodeModule(names[k], false)
  {
    seq(|names|, k requires 0 <= k < |names| => NodeModule(names[k], false))
  }

  /** What the node thread and the callers let through to the slots: a stopping node
      delivers the stop reply, and a failed file transfer under the name of its module, but
      nothing else; an end report names the running module.  A stop reply is let through
      from any node and under any name.  Commands name existing stages.  Clearing the failed
      marks dereferences every node. */
  predicate Enabled(s: Server, e: Event) {
    match e
    case NodeArrives => true
    case ModulesListed(n, names) => Live(s.nodes, n) && !s.nodes[n].value.stopping
    case ModulesDropped(n) => Live(s.nodes, n)
    case PrepareSucceeded(n, name) => Live(s.nodes, n) ==> !s.nodes[n].value.stopping
    case PrepareFailed(n, name, code) =>
      Live(s.nodes, n) ==>
        var node := s.nodes[n].value; !node.stopping || (code == TRANSFER_FAILED && name == node.running)
    case StartSucceeded(n, name) => Live(s.nodes, n) ==> !s.nodes[n].value.stopping
    case StartFailed(n, name) => Live(s.nodes, n) ==> !s.nodes[n].value.stopping
    case EndSucceeded(n, name) =>
      Live(s.nodes, n) ==> !s.nodes[n].value.stopping && s.nodes[n].value.running == name
    case EndFailed(n, name, code) =>
      Live(s.nodes, n) ==> !s.nodes[n].value.stopping && s.nodes[n].value.running == name
    case StopReply(n, name, success) => true
    case NodeLost(n) => true
    case FailedCleared => forall n :: 0 <= n < |s.nodes| ==> s.nodes[n].Some?
    case ProcessArrives(stages, start) => start < |stages| && FreshPlan(stages)
    case ProcessStopped(pid) => true
    case StageRequested(pid, stage) => true
    case StopRequested(pid, sel) => true
  }

  /** Every module of a new plan waits, or is over already after resuming. */
  predicate FreshPlan(stages: seq<Stage>) {
    forall k, j :: 0 <= k < |stages| && 0 <= j < |stages[k]| ==>
      (stages[k][j].status.Wait? || Over(stages[k][j])) && stages[k][j].node == -1
  }

  function Step(env: Env, s: Server, e: Event): (r: Result)
    requires Staged(s) && Enabled(s, e)
    ensures Staged(r.s)
  {
    match e
    case NodeArrives => Result(s.(nodes := s.nodes + [Some(Node(false, false, -1, "", []))]), false)
    case ModulesListed(n, names) => CheckQueue(env, SetNode(s, n, s.nodes[n].value.(modules := Installed(names))))
    case ModulesDropped(n) => Result(SetNode(s, n, s.nodes[n].value.(modules := [])), false)
    case PrepareSucceeded(n, name) => Result(s, false)
    case PrepareFailed(n, name, code) => PrepareFailedSlot(env, s, n, name, code)
    case StartSucceeded(n, name) => Result(s, false)
    case StartFailed(n, name) => if Addressed(s, n) then Bounce(env, s, n, name) else Result(s, false)
    case EndSucceeded(n, name) => if Addressed(s, n) then Close(env, s, n, name, Done) else Result(s, false)
    case EndFailed(n, name, code) => EndFailedSlot(env, s, n, name, code)
    case StopReply(n, name, success) => StopReplySlot(env, s, n, name, success)
    case NodeLost(n) => NodeLostSlot(s, n)
    case FailedCleared => Result(FailedClearedSlot(s), false)
    case ProcessArrives(stages, start) => ProcessArrivesSlot(env, s, stages, start)
    case ProcessStopped(pid) => ProcessStoppedSlot(env, s, pid)
    case StageRequested(pid, stage) => StageRequestedSlot(env, s, pid, stage)
    case StopRequested(pid, sel) => StopRequestedSlot(s, pid, sel)
  }

  // ---- induction over the queue loop ------------------------------------------------

  predicate AskRelates(env: Env, R: (Server, Server) -> bool, s: Server, i: nat, n: nat) {
    Staged(s) && i < |s.processes| && Free(s.nodes, n) ==> R(s, Ask(env, s, i, n))
  }

  /** A reflexive and transitive relation that every question to a process respects holds
      between the servers before and after the loop. */
  lemma {:induction false} PassRelates(env: Env, R: (Server, Server) -> bool, s: Server, i: nat, n: nat)
    requires Staged(s)
    requires forall t :: R(t, t)
    requires forall t, u, v :: R(t, u) && R(u, v) ==> R(t, v)
    requires forall t, k, m :: AskRelates(env, R, t, k, m)
    ensures R(s, Pass(env, s, i, n).s)
    decreases |s.processes|, |s.processes| - i, |s.nodes| - n
  {
    if i >= |s.processes| {
    } else if n >= |s.nodes| {
      PassRelates(env, R, s, i + 1, 0);
    } else if !Free(s.nodes, n) {
      PassRelates(env, R, s, i, n + 1);
    } else {
      var t := Ask(env, s, i, n);
      assert AskRelates(env, R, s, i, n);
      if |t.processes| == |s.processes| {
        PassRelates(env, R, t, i, n + 1);
      } else {
        PassRelates(env, R, t, 0, 0);
        var r := Pass(env, t, 0, 0);
        assert R(s, r.s);
        if !r.strayed && i < |r.s.processes| { PassRelates(env, R, r.s, i, n + 1); }
      }
    }
  }
}
