/** The scheduler's classes.  Every method is proved against the function on values that
    specifies it: State() after the call is that function of State() before. */
module Scheduler {
  import opened Wrappers
  import opened Entities
  import opened ProcessSteps
  import opened ServerSteps

  class DiscompNode {
    var busy: bool
    var stopping: bool
    var processId: int
    var running: string
    var modules: seq<NodeModule>

    function State(): Node
      reads this
    {
      Node(busy, stopping, processId, running, modules)
    }

    constructor ()
      ensures State() == Node(false, false, -1, "", [])
    {
      busy, stopping, processId, running, modules := false, false, -1, "", [];
    }

    method PrepareModule(name: string)
      modifies this
      ensures State() == old(State()).(running := name)
    {
      running := name;
    }

    method ClearNodeState()
      modifies this
      ensures State() == Idle(old(State()))
    {
      busy := false;
      stopping := false;
      processId := -1;
      running := "";
    }

    method AddFailedModule(name: string)
      modifies this
      ensures State() == old(State()).(modules := MarkFailed(old(modules), name))
    {
      var k := 0;
      while k < |modules|
        invariant k <= |modules| && State() == old(State())
        invariant forall j :: 0 <= j < k ==> modules[j].name != name
      {
        if modules[k].name == name {
          FirstIsMarked(modules, name, k);
          modules := modules[k := modules[k].(failed := true)];
          return;
        }
        k := k + 1;
      }
      FirstIsMarked(modules, name, k);
    }

    static lemma {:induction false} FirstIsMarked(ms: seq<NodeModule>, name: string, k: nat)
      requires k <= |ms| && forall j :: 0 <= j < k ==> ms[j].name != name
      requires k < |ms| ==> ms[k].name == name
      ensures MarkFailed(ms, name) == if k < |ms| then ms[k := ms[k].(failed := true)] else ms
    {
      if k > 0 {
        FirstIsMarked(ms[1..], name, k - 1);
      }
    }

    method ClearFailedModules()
      modifies this
      ensures State() == old(State()).(modules := ClearFailed(old(modules)))
    {
      var k := 0;
      while k < |modules|
        invariant k <= |modules| == |old(modules)|
        invariant State() == old(State()).(modules := modules)
        invariant forall l :: 0 <= l < |modules| ==>
          modules[l] == if l < k then old(modules)[l].(failed := false) else old(modules)[l]
      {
        modules := modules[k := modules[k].(failed := false)];
        k := k + 1;
      }
    }
  }

  class DiscompProcess {
    const id: int
    var start: nat
    var stages: seq<Stage>
    var currentStage: nat

    ghost predicate Valid()
      reads this
    {
      currentStage < |stages|
    }

    function State(): Process
      reads this
    {
      Process(id, stages, currentStage, start)
    }

    constructor (id: int, stages: seq<Stage>, start: nat)
      ensures State() == Process(id, stages, start, start)
    {
      this.id, this.start := id, start;
      this.stages, this.currentStage := stages, start;
    }

    method SetModule(j: nat, m: StageModule)
      requires Valid() && j < |stages[currentStage]|
      modifies this`stages
      ensures stages == old(stages)[currentStage := old(stages)[currentStage][j := m]]
    {
      stages := stages[currentStage := stages[currentStage][j := m]];
    }

    method RebuildStageModulesForParallelList(env: Env)
      requires Valid()
      modifies this`stages
      ensures Valid() && State() == Rebuild(env, old(State()))
    {
      var k := 0;
      while k < |stages[currentStage]|
        invariant Valid() && k <= |stages[currentStage]|
        invariant stages == old(stages)[currentStage := stages[currentStage]]
        invariant RebuildFrom(env, id, stages[currentStage], k) == RebuildFrom(env, id, old(stages[currentStage]), 0)
        decreases CountUnexpanded(stages[currentStage][k..]), |stages[currentStage]| - k
      {
        var st := stages[currentStage];
        if Unexpanded(st[k]) {
          var size := ListSize(env, id, st[k].name);
          if size == 0 {
            SetModule(k, st[k].(status := Done));
            return;
          }
          ExpansionShrinks(st, k, Instances(st[k], 1, size));
          SetModule(k, st[k].(elem := 0));
          var e := 1;
          while e < size
            invariant Valid() && 1 <= e <= size
            invariant stages == old(stages)[currentStage := stages[currentStage]]
            invariant stages[currentStage] == st[k := st[k].(elem := 0)] + Instances(st[k], 1, e)
          {
            stages := stages[currentStage := stages[currentStage] + [Instance(st[k], e)]];
            assert Instances(st[k], 1, e + 1) == Instances(st[k], 1, e) + [Instance(st[k], e)];
            e := e + 1;
          }
        } else {
          assert st[k..][1..] == st[k + 1..];
          k := k + 1;
        }
      }
    }

    method JumpToTheStage(env: Env, stage: nat)
      requires stage < |stages|
      modifies this
      ensures Valid() && State() == Rebuild(env, old(State()).(current := stage))
    {
      currentStage := stage;
      RebuildStageModulesForParallelList(env);
    }

    /** `completed` stands for emitting processFinished_signal. */
    method CheckCurrentStageIsDone(env: Env) returns (completed: bool)
      requires Valid()
      modifies this
      ensures Valid()
      ensures match CheckStage(env, old(State()))
              case Goes(q) => !completed && State() == q
              case Completes => completed && State() == old(State())
    {
      var j := 0;
      while j < |stages[currentStage]|
        invariant j <= |stages[currentStage]|
        invariant forall k :: 0 <= k < j ==> Over(stages[currentStage][k])
      {
        if !stages[currentStage][j].status.Done? && !stages[currentStage][j].status.Stoped? {
          return false;
        }
        j := j + 1;
      }
      if currentStage == |stages| - 1 {
        return true;
      }
      currentStage := currentStage + 1;
      RebuildStageModulesForParallelList(env);
      return false;
    }

    /** The name of the module given to node `n`, if any. */
    method GiveJobToNode(env: Env, n: nat, node: DiscompNode) returns (job: Option<string>, completed: bool)
      requires Valid()
      modifies this
      ensures Valid()
      ensures match GiveJob(env, old(State()), n, node.State())
              case Gives(q, name) => !completed && job == Some(name) && State() == q
              case Refuses(q) => !completed && job == None && State() == q
              case Ends => completed && job == None && State() == old(State())
    {
      completed := CheckCurrentStageIsDone(env);
      job := None;
      if completed { return; }
      ghost var q := State();
      var j := 0;
      while j < |stages[currentStage]|
        invariant Valid() && State() == q && j <= |stages[currentStage]|
        invariant forall k :: 0 <= k < j ==> !Eligible(stages[currentStage][k], node.State())
      {
        var m := stages[currentStage][j];
        if m.status.Wait? {
          var k := 0;
          while k < |node.modules|
            invariant k <= |node.modules|
            invariant forall l :: 0 <= l < k ==> node.modules[l].name != m.name || node.modules[l].failed
          {
            if node.modules[k].name == m.name && !node.modules[k].failed {
              assert Eligible(m, node.State());
              assert FirstEligible(Cur(q), node.State()) == j;
              if !Ready(env, id, m.name) { return; }
              SetModule(j, m.(node := n, status := Started));
              job := Some(m.name);
              return;
            }
            k := k + 1;
          }
        }
        j := j + 1;
      }
    }

    method ClearJobOnNode(n: nat)
      requires Valid()
      modifies this`stages
      ensures Valid() && State() == ClearJob(old(State()), n)
    {
      var j := 0;
      while j < |stages[currentStage]|
        invariant Valid() && j <= |stages[currentStage]| == |old(stages[currentStage])|
        invariant stages == old(stages)[currentStage := stages[currentStage]]
        invariant forall k :: 0 <= k < |stages[currentStage]| ==>
                    stages[currentStage][k] ==
                      if k < j then Cleared(old(stages[currentStage])[k], n) else old(stages[currentStage])[k]
      {
        var m := stages[currentStage][j];
        if m.node == n && m.status.Started? {
          SetModule(j, m.(node := -1, status := Wait));
        }
        j := j + 1;
      }
      assert stages[currentStage] == ClearStage(old(stages[currentStage]), n);
    }

    /** The loop of finishModuleExecutionOnNode and moduleMaxTimeReached; it does not stop
        at the first module it finds. */
    method CreditModule(n: nat, name: string, to: Status)
      requires Valid() && (to.Done? || to.Stoped?)
      modifies this`stages
      ensures Valid() && State() == Credit(old(State()), n, name, to)
    {
      var j := 0;
      while j < |stages[currentStage]|
        invariant Valid() && j <= |stages[currentStage]| == |old(stages[currentStage])|
        invariant stages == old(stages)[currentStage := stages[currentStage]]
        invariant forall k :: 0 <= k < |stages[currentStage]| ==>
                    stages[currentStage][k] ==
                      if k < j then Credited(old(stages[currentStage])[k], n, name, to)
                        else old(stages[currentStage])[k]
      {
        var m := stages[currentStage][j];
        if !m.status.Done? && !m.status.Stoped? && m.node == n {
          if m.name == name {
            SetModule(j, m.(status := to));
          }
        }
        j := j + 1;
      }
      assert stages[currentStage] == CreditStage(old(stages[currentStage]), n, name, to);
    }

    /** Nodes for which processStopModuleExecutionOnNode_signal is emitted, in order. */
    method StopModulesSelected(sel: Selector) returns (signals: seq<int>)
      requires Valid()
      modifies this`stages
      ensures Valid() && State() == StopModules(old(State()), sel)
      ensures signals == StopSignals(old(stages[currentStage]), sel)
    {
      signals := [];
      ghost var was := stages[currentStage];
      var j := 0;
      while j < |stages[currentStage]|
        invariant Valid() && j <= |stages[currentStage]| == |was|
        invariant stages == old(stages)[currentStage := stages[currentStage]]
        invariant signals == StopSignals(was[..j], sel)
        invariant forall k :: 0 <= k < |was| ==>
          stages[currentStage][k] == if k < j then StopOne(was[k], sel) else was[k]
      {
        var m := stages[currentStage][j];
        assert was[..j + 1][..j] == was[..j];
        if Selected(m, sel) {
          match m.status {
            case Wait => SetModule(j, m.(status := Stoped));
            case Started =>
              SetModule(j, m.(status := Stopping));
              signals := signals + [m.node];
            case _ =>
          }
        }
        j := j + 1;
      }
      assert was[..|was|] == was;
      assert stages[currentStage] == StopStage(was, sel);
    }

    /** The destructor's loop: nodes for which processFreeNode_signal is emitted. */
    method Destruct() returns (signals: seq<int>)
      requires Valid()
      ensures signals == FreeSignals(stages[currentStage])
    {
      var st := stages[currentStage];
      signals := [];
      for j := 0 to |st|
        invariant signals == FreeSignals(st[..j])
      {
        assert st[..j + 1][..j] == st[..j];
        if st[j].status.Started? {
          signals := signals + [st[j].node];
        }
      }
      assert st[..|st|] == st;
    }

    /** The inner loop of gotoStage, for stage `k`. */
    method ResetModules(k: nat) returns (signals: seq<int>)
      requires k < |stages|
      modifies this`stages
      ensures stages == old(stages)[k := ResetStage(old(stages)[k])]
      ensures signals == FreeSignals(old(stages)[k])
    {
      signals := [];
      ghost var was := stages[k];
      var j := 0;
      while j < |stages[k]|
        invariant |stages| == |old(stages)| && j <= |stages[k]| == |was|
        invariant stages == old(stages)[k := stages[k]]
        invariant signals == FreeSignals(was[..j])
        invariant forall l :: 0 <= l < |was| ==>
          stages[k][l] == if l < j then was[l].(status := Wait, node := -1) else was[l]
      {
        var m := stages[k][j];
        assert was[..j + 1][..j] == was[..j];
        if m.status.Started? {
          signals := signals + [m.node];
        }
        stages := stages[k := stages[k][j := m.(status := Wait, node := -1)]];
        j := j + 1;
      }
      assert was[..|was|] == was;
      assert stages[k] == ResetStage(was);
    }

    /** Stops and resets the stages from `stage` to the current one. */
    method RewindTo(stage: nat) returns (signals: seq<int>)
      requires Valid() && stage <= currentStage
      modifies this
      ensures Valid() && State() == Rewind(old(State()), stage)
      ensures signals == FreeSignalsOf(old(stages), stage, old(currentStage) + 1)
    {
      signals := [];
      var k := stage;
      while k <= currentStage
        invariant stage <= k <= currentStage + 1 && currentStage == old(currentStage) && start == old(start)
        invariant |stages| == |old(stages)|
        invariant signals == FreeSignalsOf(old(stages), stage, k)
        invariant forall l :: 0 <= l < |stages| ==>
          stages[l] == if stage <= l < k then ResetStage(old(stages)[l]) else old(stages)[l]
      {
        var more := ResetModules(k);
        signals := signals + more;
        k := k + 1;
      }
      currentStage := stage;
      if stage < start { start := stage; }
      assert stages == Rewind(old(State()), stage).stages;
    }
  }

  class DiscompServer {
    var processes: seq<DiscompProcess>
    var nodes: seq<DiscompNode?>
    var processCounter: int
    ghost var finished: seq<Process>

    /** Processes and nodes are separate objects. */
    ghost predicate Valid()
      reads this, processes, nodes
    {
      && (forall i :: 0 <= i < |processes| ==> processes[i].Valid())
      && (forall i, k :: 0 <= i < k < |processes| ==> processes[i] != processes[k])
      && (forall n, m :: 0 <= n < m < |nodes| && nodes[n] != null ==> nodes[n] != nodes[m])
    }

    ghost function Processes(): (ps: seq<Process>)
      reads this, processes
      ensures |ps| == |processes|
      ensures forall i :: 0 <= i < |processes| ==> ps[i] == processes[i].State()
    {
      seq(|processes|, i requires 0 <= i < |processes| reads this, processes => processes[i].State())
    }

    ghost function Nodes(): (ns: seq<Option<Node>>)
      reads this, nodes
      ensures |ns| == |nodes|
      ensures forall n :: 0 <= n < |nodes| ==> ns[n] == if nodes[n] == null then None else Some(nodes[n].State())
    {
      seq(|nodes|, n requires 0 <= n < |nodes| reads this, nodes =>
            if nodes[n] == null then None else Some(nodes[n].State()))
    }

    ghost function State(): Server
      reads this, processes, nodes
    {
      Server(Processes(), Nodes(), processCounter, finished)
    }

    constructor ()
      ensures Valid() && State() == Server([], [], 0, [])
    {
      processes, nodes, processCounter, finished := [], [], 0, [];
    }

    method GetProcessNumById(pid: int) returns (i: nat)
      requires Valid()
      ensures i == FindProcess(Processes(), pid)
    {
      i := 0;
      while i < |processes|
        invariant i <= |processes|
        invariant FindProcess(Processes(), pid) == i + FindProcess(Processes()[i..], pid)
      {
        if processes[i].id == pid { return; }
        i := i + 1;
      }
    }

    /** Takes process `i` out of the vector. */
    method RemoveProcess(i: nat, ghost completed: bool)
      requires Valid() && i < |processes|
      modifies this
      ensures Valid() && nodes == old(nodes)
      ensures |processes| == |old(processes)| - 1 && forall k :: 0 <= k < |processes| ==> processes[k] in old(processes)
      ensures State() == if completed then Retire(old(State()), i, old(processes[i].State()))
                         else old(State()).(processes := RemoveAt(old(Processes()), i))
    {
      ghost var ps, qs := Processes(), processes;
      if completed { finished := finished + [processes[i].State()]; }
      processes := RemoveAt(processes, i);
      forall k | 0 <= k < |processes| ensures Processes()[k] == RemoveAt(ps, i)[k] {
        assert processes[k] == if k < i then qs[k] else qs[k + 1];
      }
      assert Processes() == RemoveAt(ps, i);
    }

    method CheckProcessQueue(env: Env) returns (strayed: bool)
      requires Valid()
      modifies this, processes, nodes
      ensures Valid() && nodes == old(nodes)
      ensures |processes| <= |old(processes)| && forall k :: 0 <= k < |processes| ==> processes[k] in old(processes)
      ensures Result(State(), strayed) == CheckQueue(env, old(State()))
      decreases |processes|, 2
    {
      strayed := false;
      var i := 0;
      while i < |processes|
        invariant Valid() && nodes == old(nodes) && |processes| <= |old(processes)|
        invariant forall k :: 0 <= k < |processes| ==> processes[k] in old(processes)
        invariant Pass(env, State(), i, 0) == CheckQueue(env, old(State()))
        decreases |processes| - i
      {
        strayed := OfferNodes(env, i);
        if strayed { return; }
        i := i + 1;
      }
    }

    /** The inner loop: all nodes that are free are offered to process `i`. */
    method OfferNodes(env: Env, i: nat) returns (strayed: bool)
      requires Valid() && i < |processes|
      modifies this, processes, nodes
      ensures Valid() && nodes == old(nodes)
      ensures |processes| <= |old(processes)| && forall k :: 0 <= k < |processes| ==> processes[k] in old(processes)
      ensures Pass(env, old(State()), i, 0) == if strayed then Result(State(), true) else Pass(env, State(), i + 1, 0)
      decreases |processes|, 1
    {
      strayed := false;
      var n := 0;
      while n < |nodes|
        invariant Valid() && nodes == old(nodes) && |processes| <= |old(processes)|
        invariant forall k :: 0 <= k < |processes| ==> processes[k] in old(processes)
        invariant i < |processes| && n <= |nodes|
        invariant Pass(env, State(), i, n) == Pass(env, old(State()), i, 0)
        decreases |nodes| - n
      {
        if nodes[n] != null && !nodes[n].busy {
          strayed := OfferNode(env, i, n);
          if strayed { return; }
        }
        n := n + 1;
      }
    }

    /** The body of the queue loop: process `i` is asked for a job for the free node `n`. */
    method OfferNode(env: Env, i: nat, n: nat) returns (strayed: bool)
      requires Valid() && i < |processes| && n < |nodes| && nodes[n] != null && !nodes[n].busy
      modifies this, processes, nodes
      ensures Valid() && nodes == old(nodes)
      ensures |processes| <= |old(processes)| && forall k :: 0 <= k < |processes| ==> processes[k] in old(processes)
      ensures Pass(env, old(State()), i, n) == if strayed then Result(State(), true) else Pass(env, State(), i, n + 1)
      ensures !strayed ==> i < |processes|
      decreases |processes|, 0, 1
    {
      hide GiveJob;
      ghost var s := State();
      strayed := false;
      var job, completed := AskProcess(env, i, n);
      if completed {
        strayed := ProcessFinished(env, i);
        strayed := strayed || i >= |processes|;
      } else {
        if job.Some? {
          OccupyNode(i, n, job.value);
        }
        assert State() == Ask(env, s, i, n);
      }
    }

    /** processFinished_slot: the process is deleted and the queue is checked again. */
    method ProcessFinished(env: Env, i: nat) returns (strayed: bool)
      requires Valid() && i < |processes|
      modifies this, processes, nodes
      ensures Valid() && nodes == old(nodes)
      ensures |processes| < |old(processes)| && forall k :: 0 <= k < |processes| ==> processes[k] in old(processes)
      ensures Result(State(), strayed) == CheckQueue(env, Retire(old(State()), i, old(State()).processes[i]))
      decreases |processes|, 0, 0
    {
      ghost var was := processes;
      RemoveProcess(i, true);
      assert forall k :: 0 <= k < |processes| ==> processes[k] in was;
      strayed := CheckProcessQueue(env);
    }

    // ---- slots for reports from nodes -----------------------------------------------

    lemma SettleAfterChange(env: Env, s: Server, i: nat, p: Process)
      requires Staged(s) && i < |s.processes| && p.current < |p.stages|
      ensures Staged(SetProcess(s, i, p)) && Settle(env, SetProcess(s, i, p), i, p) == Settle(env, s, i, p)
    {
      assert forall q :: SetProcess(SetProcess(s, i, p), i, q) == SetProcess(s, i, q);
      assert Retire(SetProcess(s, i, p), i, p) == Retire(s, i, p);
    }

    /** What follows a change of process `i`: the stage check and its signal. */
    method SettleProcess(env: Env, i: nat) returns (strayed: bool)
      requires Valid() && i < |processes|
      modifies this, processes, nodes
      ensures Valid() && nodes == old(nodes)
      ensures |processes| <= |old(processes)| && forall k :: 0 <= k < |processes| ==> processes[k] in old(processes)
      ensures Result(State(), strayed) == Settle(env, old(State()), i, old(State()).processes[i])
    {
      ghost var s := State();
      var p := processes[i];
      var completed := p.CheckCurrentStageIsDone(env);
      assert Nodes() == s.nodes && Processes() == s.processes[i := p.State()];
      strayed := false;
      if completed {
        assert State() == s;
        strayed := ProcessFinished(env, i);
      }
    }

    /** finishModuleExecutionOnNode or moduleMaxTimeReached of process `i`. */
    method CreditReport(env: Env, i: nat, n: nat, name: string, to: Status) returns (strayed: bool)
      requires Valid() && i < |processes| && (to.Done? || to.Stoped?)
      modifies this, processes, nodes
      ensures Valid() && nodes == old(nodes)
      ensures |processes| <= |old(processes)| && forall k :: 0 <= k < |processes| ==> processes[k] in old(processes)
      ensures Result(State(), strayed) == Settle(env, old(State()), i, Credit(old(State()).processes[i], n, name, to))
    {
      ghost var s := State();
      var p := processes[i];
      p.CreditModule(n, name, to);
      assert Nodes() == s.nodes && Processes() == s.processes[i := p.State()];
      SettleAfterChange(env, s, i, p.State());
      strayed := SettleProcess(env, i);
    }

    // Each of these changes one process or one node.

    method RewindProcess(i: nat, stage: nat) returns (signals: seq<int>)
      requires Valid() && i < |processes| && stage <= processes[i].currentStage
      modifies processes
      ensures Valid() && State() == SetProcess(old(State()), i, Rewind(old(State()).processes[i], stage))
      ensures signals == FreeSignalsOf(old(State()).processes[i].stages, stage, old(State()).processes[i].current + 1)
    {
      ghost var s := State();
      signals := processes[i].RewindTo(stage);
      assert Processes() == s.processes[i := processes[i].State()] && Nodes() == s.nodes;
    }

    method RebuildProcess(env: Env, i: nat)
      requires Valid() && i < |processes|
      modifies processes
      ensures Valid() && State() == SetProcess(old(State()), i, Rebuild(env, old(State()).processes[i]))
    {
      ghost var s := State();
      processes[i].RebuildStageModulesForParallelList(env);
      assert Processes() == s.processes[i := processes[i].State()] && Nodes() == s.nodes;
    }

    method ClearJobAt(i: nat, n: nat)
      requires Valid() && i < |processes|
      modifies processes
      ensures Valid() && State() == SetProcess(old(State()), i, ClearJob(old(State()).processes[i], n))
    {
      ghost var s := State();
      processes[i].ClearJobOnNode(n);
      assert Processes() == s.processes[i := processes[i].State()] && Nodes() == s.nodes;
    }

    method BarModule(n: nat, name: string)
      requires Valid() && n < |nodes| && nodes[n] != null
      modifies nodes
      ensures Valid() && State() == AddFailed(old(State()), n, name)
    {
      ghost var s := State();
      nodes[n].AddFailedModule(name);
      assert Processes() == s.processes && Nodes() == s.nodes[n := Some(nodes[n].State())];
    }

    method OccupyNode(i: nat, n: nat, name: string)
      requires Valid() && i < |processes| && n < |nodes| && nodes[n] != null
      modifies nodes
      ensures Valid()
      ensures State() ==
        SetNode(old(State()), n, Occupied(old(State()).nodes[n].value, old(State()).processes[i].id, name))
    {
      ghost var s := State();
      nodes[n].busy := true;
      nodes[n].processId := processes[i].id;
      nodes[n].PrepareModule(name);
      assert Processes() == s.processes && Nodes() == s.nodes[n := Some(nodes[n].State())];
    }

    /** giveJobToNode of process `i` for node `n`. */
    method AskProcess(env: Env, i: nat, n: nat) returns (job: Option<string>, completed: bool)
      requires Valid() && i < |processes| && n < |nodes| && nodes[n] != null
      modifies processes
      ensures Valid()
      ensures match GiveJob(env, old(State()).processes[i], n, old(State()).nodes[n].value)
              case Gives(q, name) => !completed && job == Some(name) && State() == SetProcess(old(State()), i, q)
              case Refuses(q) => !completed && job == None && State() == SetProcess(old(State()), i, q)
              case Ends => completed && job == None && State() == old(State())
    {
      ghost var s := State();
      job, completed := processes[i].GiveJobToNode(env, n, nodes[n]);
      assert Processes() == s.processes[i := processes[i].State()] && Nodes() == s.nodes;
    }

    method ClearNodeAt(n: nat)
      requires Valid() && n < |nodes| && nodes[n] != null
      modifies nodes
      ensures Valid() && State() == ClearNode(old(State()), n)
    {
      ghost var s := State();
      nodes[n].ClearNodeState();
      assert Processes() == s.processes && Nodes() == s.nodes[n := Some(nodes[n].State())];
    }

    /** Clears the job, bars the module from the node, frees the node, checks the queue. */
    method BounceModule(env: Env, i: nat, n: nat, name: string) returns (strayed: bool)
      requires Valid() && Addressed(State(), n) && i == Addressee(State(), n)
      modifies this, processes, nodes
      ensures Valid() && Result(State(), strayed) == Bounce(env, old(State()), n, name)
    {
      ClearJobAt(i, n);
      BarModule(n, name);
      ClearNodeAt(n);
      strayed := CheckProcessQueue(env);
    }

    /** Credits the module, frees the node, checks the queue. */
    method CloseModule(env: Env, i: nat, n: nat, name: string, to: Status) returns (strayed: bool)
      requires Valid() && Addressed(State(), n) && i == Addressee(State(), n) && (to.Done? || to.Stoped?)
      modifies this, processes, nodes
      ensures Valid() && Result(State(), strayed) == Close(env, old(State()), n, name, to)
    {
      strayed := CreditReport(env, i, n, name, to);
      if strayed { return; }
      ClearNodeAt(n);
      strayed := CheckProcessQueue(env);
    }

    method PrepareModuleFailedSlot(env: Env, n: nat, name: string, code: int) returns (strayed: bool)
      requires Valid()
      modifies this, processes, nodes
      ensures Valid() && Result(State(), strayed) == PrepareFailedSlot(env, old(State()), n, name, code)
    {
      strayed := false;
      if n >= |nodes| || nodes[n] == null { return; }
      var i := GetProcessNumById(nodes[n].processId);
      if i == |processes| { return; }
      if code == MD5_DIFFERS {
        ClearJobAt(i, n);
        ClearNodeAt(n);
      } else {
        strayed := BounceModule(env, i, n, name);
      }
    }

    method StartModuleFailedSlot(env: Env, n: nat, name: string) returns (strayed: bool)
      requires Valid()
      modifies this, processes, nodes
      ensures Valid()
      ensures Result(State(), strayed) ==
              if Addressed(old(State()), n) then Bounce(env, old(State()), n, name) else Result(old(State()), false)
    {
      strayed := false;
      if n >= |nodes| || nodes[n] == null { return; }
      var i := GetProcessNumById(nodes[n].processId);
      if i == |processes| { return; }
      strayed := BounceModule(env, i, n, name);
    }

    method EndModuleSuccessSlot(env: Env, n: nat, name: string) returns (strayed: bool)
      requires Valid()
      modifies this, processes, nodes
      ensures Valid()
      ensures Result(State(), strayed) ==
              if Addressed(old(State()), n) then Close(env, old(State()), n, name, Done)
              else Result(old(State()), false)
    {
      strayed := false;
      if n >= |nodes| || nodes[n] == null { return; }
      var i := GetProcessNumById(nodes[n].processId);
      if i == |processes| { return; }
      strayed := CloseModule(env, i, n, name, Done);
    }

    method EndModuleFailedSlot(env: Env, n: nat, name: string, code: int) returns (strayed: bool)
      requires Valid()
      modifies this, processes, nodes
      ensures Valid() && Result(State(), strayed) == EndFailedSlot(env, old(State()), n, name, code)
    {
      strayed := false;
      if n >= |nodes| || nodes[n] == null { return; }
      var i := GetProcessNumById(nodes[n].processId);
      if i == |processes| { return; }
      if code == OUTPUT_MISSING {
        strayed := BounceModule(env, i, n, name);
      } else if code == MAX_TIME_REACHED {
        strayed := CloseModule(env, i, n, name, Stoped);
      } else {
        ClearNodeAt(n);
        strayed := CheckProcessQueue(env);
      }
    }

    method StopModuleSuccessSlot(env: Env, n: nat, name: string) returns (strayed: bool)
      requires Valid()
      modifies this, processes, nodes
      ensures Valid() && Result(State(), strayed) == StopReplySlot(env, old(State()), n, name, true)
    {
      hide CheckQueue, Close;
      strayed := false;
      if n >= |nodes| || nodes[n] == null { return; }
      var i := GetProcessNumById(nodes[n].processId);
      if i == |processes| {
        ClearNodeAt(n);
        strayed := CheckProcessQueue(env);
      } else {
        strayed := CloseModule(env, i, n, name, Done);
      }
    }

    method CreditAndCheck(env: Env, i: nat, n: nat, name: string) returns (strayed: bool)
      requires Valid() && i < |processes|
      modifies this, processes, nodes
      ensures Valid()
      ensures Result(State(), strayed) ==
              Then(env, Settle(env, old(State()), i, Credit(old(State()).processes[i], n, name, Done)))
    {
      hide Settle, Credit, CheckQueue;
      strayed := CreditReport(env, i, n, name, Done);
      if !strayed { strayed := CheckProcessQueue(env); }
    }

    /** stopModuleFailed_slot on values, one step after the other. */
    static lemma StopFailedInSteps(env: Env, s: Server, n: nat, name: string)
      requires Staged(s) && Live(s.nodes, n)
      ensures var i := FindProcess(s.processes, s.nodes[n].value.processId);
              StopReplySlot(env, s, n, name, false) ==
              if i == |s.processes| then CheckQueue(env, ClearNode(s, n))
              else Then(env, Settle(env, ClearNode(s, n), i, Credit(s.processes[i], n, name, Done)))
    {
      hide CheckQueue, Settle, Credit, FindProcess, ClearNode;
    }

    method StopModuleFailedSlot(env: Env, n: nat, name: string) returns (strayed: bool)
      requires Valid()
      modifies this, processes, nodes
      ensures Valid() && Result(State(), strayed) == StopReplySlot(env, old(State()), n, name, false)
    {
      hide StopReplySlot, CheckQueue, Then, Settle, Credit, FindProcess, ClearNode;
      strayed := false;
      ghost var s := State();
      if n >= |nodes| || nodes[n] == null {
        assert StopReplySlot(env, s, n, name, false) == Result(s, false) by { DeadNodeReplies(env, s, n, name); }
        return;
      }
      StopFailedInSteps(env, s, n, name);
      var i := GetProcessNumById(nodes[n].processId);
      ClearNodeAt(n);
      if i < |processes| {
        strayed := CreditAndCheck(env, i, n, name);
      } else {
        strayed := CheckProcessQueue(env);
      }
    }

    static lemma DeadNodeReplies(env: Env, s: Server, n: nat, name: string)
      requires Staged(s) && !Live(s.nodes, n)
      ensures StopReplySlot(env, s, n, name, false) == Result(s, false)
    {
    }

    method NodeDisconnectedSlot(n: nat)
      requires Valid()
      modifies this, processes
      ensures Valid() && Result(State(), false) == NodeLostSlot(old(State()), n)
    {
      if n >= |nodes| || nodes[n] == null { return; }
      ghost var s := State();
      var i := 0;
      while i < |processes|
        invariant Valid() && processes == old(processes) && nodes == old(nodes) && i <= |processes|
        invariant processCounter == old(processCounter) && finished == old(finished) && Nodes() == s.nodes
        invariant forall k :: 0 <= k < |processes| ==>
          Processes()[k] == if k < i then ClearJob(s.processes[k], n) else s.processes[k]
      {
        processes[i].ClearJobOnNode(n);
        i := i + 1;
      }
      nodes := nodes[n := null];
      assert Processes() == ClearJobs(s.processes, n) && Nodes() == s.nodes[n := None];
    }

    // ---- commands -------------------------------------------------------------------

    method IncomingConnection()
      requires Valid()
      modifies this
      ensures Valid() && State() == old(State()).(nodes := old(Nodes()) + [Some(Node(false, false, -1, "", []))])
    {
      var node := new DiscompNode();
      nodes := nodes + [node];
      assert Processes() == old(Processes()) && Nodes() == old(Nodes()) + [Some(node.State())];
    }

    /** The node's list of modules arrives, and with it nodeConnected_slot. */
    method ReceiveModulesList(env: Env, n: nat, names: seq<string>) returns (strayed: bool)
      requires Valid() && n < |nodes| && nodes[n] != null
      modifies this, processes, nodes
      ensures Valid() && Result(State(), strayed) ==
                         CheckQueue(env, SetNode(old(State()), n, old(nodes[n].State()).(modules := Installed(names))))
    {
      ghost var s := State();
      nodes[n].modules := Installed(names);
      assert Processes() == s.processes && Nodes() == s.nodes[n := Some(nodes[n].State())];
      strayed := CheckProcessQueue(env);
    }

    /** Init of a process: `completed` when it has nothing left to run. */
    method InitProcess(env: Env, stages: seq<Stage>, start: nat) returns (p: DiscompProcess, completed: bool)
      requires start < |stages|
      ensures fresh(p) && p.Valid()
      ensures match CheckStage(env, Rebuild(env, Process(processCounter, stages, start, start)))
              case Goes(q) => !completed && p.State() == q
              case Completes => completed
    {
      p := new DiscompProcess(processCounter, stages, start);
      p.RebuildStageModulesForParallelList(env);
      completed := p.CheckCurrentStageIsDone(env);
    }

    /** The result tells whether the process was accepted. */
    method StartProcess(env: Env, stages: seq<Stage>, start: nat) returns (accepted: bool, strayed: bool)
      requires Valid() && start < |stages|
      modifies this, processes, nodes
      ensures Valid() && Result(State(), strayed) == ProcessArrivesSlot(env, old(State()), stages, start)
    {
      hide CheckQueue, CheckStage, Rebuild;
      ghost var s := State();
      var p, completed := InitProcess(env, stages, start);
      accepted, strayed := !completed, false;
      assert Processes() == s.processes && Nodes() == s.nodes;
      processCounter := processCounter + 1;
      assert Processes() == s.processes && Nodes() == s.nodes;
      if completed { return; }
      AddProcess(p);
      strayed := CheckProcessQueue(env);
    }

    method AddProcess(p: DiscompProcess)
      requires Valid() && p.Valid() && p !in processes
      modifies this`processes
      ensures Valid() && processes == old(processes) + [p]
      ensures State() == old(State()).(processes := old(Processes()) + [p.State()])
    {
      processes := processes + [p];
      assert Processes() == old(Processes()) + [p.State()] && Nodes() == old(Nodes());
    }

    /** The slot for processFreeNode_signal; both of its branches do the same. */
    method ProcessFreeNodeSlot(n: int)
      requires Valid()
      modifies nodes
      ensures Valid() && State() == old(State()).(nodes := FreeNode(old(Nodes()), n))
    {
      if n < 0 || n >= |nodes| || nodes[n] == null { return; }
      if nodes[n].busy { nodes[n].stopping := true; }
      assert Processes() == old(Processes()) && Nodes() == FreeNode(old(Nodes()), n);
    }

    method FreeSignalled(signals: seq<int>)
      requires Valid()
      modifies nodes
      ensures Valid() && State() == old(State()).(nodes := FreeNodes(old(Nodes()), signals))
    {
      for k := 0 to |signals|
        invariant Valid() && State() == old(State()).(nodes := FreeNodes(old(Nodes()), signals[..k]))
      {
        assert signals[..k + 1][..k] == signals[..k];
        ProcessFreeNodeSlot(signals[k]);
      }
      assert signals[..|signals|] == signals;
    }

    method StopProcess(env: Env, pid: int) returns (strayed: bool)
      requires Valid()
      modifies this, processes, nodes
      ensures Valid() && Result(State(), strayed) == ProcessStoppedSlot(env, old(State()), pid)
    {
      hide CheckQueue, RemoveAt, FreeNodes, FreeSignals, FindProcess;
      strayed := false;
      var i := GetProcessNumById(pid);
      if i == |processes| { return; }
      var signals := processes[i].Destruct();
      FreeSignalled(signals);
      RemoveProcess(i, false);
      strayed := CheckProcessQueue(env);
    }

    lemma StageNotRequested(env: Env, s: Server, pid: int, stage: nat)
      requires Staged(s)
      requires FindProcess(s.processes, pid) == |s.processes| ||
        stage > s.processes[FindProcess(s.processes, pid)].current
      ensures StageRequestedSlot(env, s, pid, stage) == Result(s, false)
    {
    }

    /** The server once process `i` has been reset, its nodes freed and its stage expanded. */
    ghost function Rewound(env: Env, s: Server, i: nat, stage: nat): (t: Server)
      requires Staged(s) && i < |s.processes| && stage <= s.processes[i].current
      ensures Staged(t) && |t.processes| == |s.processes|
    {
      var q := Rewind(s.processes[i], stage);
      var signals := FreeSignalsOf(s.processes[i].stages, stage, s.processes[i].current + 1);
      SetProcess(SetProcess(s, i, q).(nodes := FreeNodes(s.nodes, signals)), i, Rebuild(env, q))
    }

    lemma StageRequestedInSteps(env: Env, s: Server, pid: int, stage: nat)
      requires Staged(s) && FindProcess(s.processes, pid) < |s.processes|
      requires stage <= s.processes[FindProcess(s.processes, pid)].current
      ensures var i := FindProcess(s.processes, pid);
              var t := Rewound(env, s, i, stage);
              StageRequestedSlot(env, s, pid, stage) == Settle(env, t, i, t.processes[i])
    {
      var i := FindProcess(s.processes, pid);
      var q := Rewind(s.processes[i], stage);
      var freed :=
        s.(nodes := FreeNodes(s.nodes, FreeSignalsOf(s.processes[i].stages, stage, s.processes[i].current + 1)));
      assert SetProcess(SetProcess(s, i, q).(nodes := freed.nodes), i, Rebuild(env, q)) ==
        SetProcess(freed, i, Rebuild(env, q));
      SettleAfterChange(env, freed, i, Rebuild(env, q));
    }

    method RewindAndFree(env: Env, i: nat, stage: nat)
      requires Valid() && i < |processes| && stage <= processes[i].currentStage
      modifies processes, nodes
      ensures Valid() && State() == Rewound(env, old(State()), i, stage)
    {
      hide Rewind, Rebuild, FreeNodes, FreeSignalsOf;
      var signals := RewindProcess(i, stage);
      FreeSignalled(signals);
      RebuildProcess(env, i);
    }

    method GotoStage(env: Env, pid: int, stage: nat) returns (strayed: bool)
      requires Valid()
      modifies this, processes, nodes
      ensures Valid() && Result(State(), strayed) == StageRequestedSlot(env, old(State()), pid, stage)
    {
      hide StageRequestedSlot, Rewound, Settle, FindProcess;
      strayed := false;
      var i := GetProcessNumById(pid);
      ghost var s := State();
      if i == |processes| || stage > processes[i].currentStage {
        StageNotRequested(env, s, pid, stage);
        return;
      }
      RewindAndFree(env, i, stage);
      StageRequestedInSteps(env, s, pid, stage);
      strayed := SettleProcess(env, i);
    }

    method StopModuleOnNodeSlot(n: int)
      requires Valid()
      modifies nodes
      ensures Valid() && processes == old(processes)
      ensures State() == old(State()).(nodes := StopNode(old(Nodes()), old(Processes()), n))
    {
      if n < 0 || n >= |nodes| || nodes[n] == null { return; }
      var i := GetProcessNumById(nodes[n].processId);
      if i == |processes| { return; }
      nodes[n].stopping := true;
      assert Processes() == old(Processes()) && Nodes() == StopNode(old(Nodes()), old(Processes()), n);
    }

    lemma {:induction false} StopNodesSameIds(nodes: seq<Option<Node>>, ps: seq<Process>,
                                              qs: seq<Process>, ns: seq<int>)
      requires |ps| == |qs| && forall k :: 0 <= k < |ps| ==> ps[k].id == qs[k].id
      ensures StopNodes(nodes, ps, ns) == StopNodes(nodes, qs, ns)
    {
      if ns != [] { StopNodesSameIds(nodes, ps, qs, ns[..|ns| - 1]); }
    }

    method StopSignalled(signals: seq<int>)
      requires Valid()
      modifies nodes
      ensures Valid() && State() == old(State()).(nodes := StopNodes(old(Nodes()), old(Processes()), signals))
    {
      for k := 0 to |signals|
        invariant Valid() && Processes() == old(Processes())
        invariant State() == old(State()).(nodes := StopNodes(old(Nodes()), old(Processes()), signals[..k]))
      {
        assert signals[..k + 1][..k] == signals[..k];
        StopModuleOnNodeSlot(signals[k]);
      }
      assert signals[..|signals|] == signals;
    }

    method StopModule(pid: int, sel: Selector)
      requires Valid()
      modifies this, processes, nodes
      ensures Valid() && Result(State(), false) == StopRequestedSlot(old(State()), pid, sel)
    {
      var i := GetProcessNumById(pid);
      if i == |processes| { return; }
      ghost var s := State();
      var p := processes[i];
      var signals := p.StopModulesSelected(sel);
      assert Processes() == s.processes[i := p.State()] && Nodes() == s.nodes;
      StopNodesSameIds(s.nodes, s.processes, Processes(), signals);
      StopSignalled(signals);
    }

    method ClearFailedModulesForNodes()
      requires Valid() && forall n :: 0 <= n < |nodes| ==> nodes[n] != null
      modifies nodes
      ensures Valid() && State() == FailedClearedSlot(old(State()))
    {
      ghost var s := State();
      for n := 0 to |nodes|
        invariant Valid() && Processes() == s.processes
        invariant forall m :: 0 <= m < |nodes| ==>
                    Nodes()[m] ==
                      if m < n then Some(s.nodes[m].value.(modules := ClearFailed(s.nodes[m].value.modules)))
                      else s.nodes[m]
      {
        nodes[n].ClearFailedModules();
      }
      assert Nodes() == FailedClearedSlot(s).nodes;
    }
  }
}
