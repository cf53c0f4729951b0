/** What the methods of a process do, as functions on process values. */
module ProcessSteps {
  import opened Entities

  // ---- rebuildStageModulesForParallelList -------------------------------------------

  predicate Unexpanded(m: StageModule) {
    m.isList && m.elem == -1
  }

  /** The module that computes element `e` of the list of `m`. */
  function Instance(m: StageModule, e: int): StageModule {
    StageModule(m.name, Wait, -1, true, e)
  }

  function Instances(m: StageModule, first: int, end: int): (r: seq<StageModule>)
    requires first <= end
    ensures |r| == end - first
    ensures forall e :: 0 <= e < |r| ==> r[e] == Instance(m, first + e)
  {
    seq(end - first, e requires 0 <= e < end - first => Instance(m, first + e))
  }

  function CountUnexpanded(st: Stage): nat {
    if st == [] then 0 else (if Unexpanded(st[0]) then 1 else 0) + CountUnexpanded(st[1..])
  }

  lemma {:induction false} CountAppendInert(a: Stage, b: Stage)
    requires forall j :: 0 <= j < |b| ==> !Unexpanded(b[j])
    ensures CountUnexpanded(a + b) == CountUnexpanded(a)
  {
    if a == [] {
      assert a + b == b;
      if b != [] {
        CountAppendInert([], b[1..]);
        assert [] + b[1..] == b[1..];
      }
    } else {
      assert (a + b)[1..] == a[1..] + b;
      CountAppendInert(a[1..], b);
    }
  }

  lemma ExpansionShrinks(st: Stage, k: nat, tail: Stage)
    requires k < |st| && Unexpanded(st[k])
    requires forall j :: 0 <= j < |tail| ==> !Unexpanded(tail[j])
    ensures CountUnexpanded((st[k := st[k].(elem := 0)] + tail)[k..]) < CountUnexpanded(st[k..])
  {
    var after := st[k := st[k].(elem := 0)] + tail;
    assert after[k..] == [st[k].(elem := 0)] + (st[k + 1..] + tail);
    assert after[k..][1..] == st[k + 1..] + tail;
    assert st[k..][1..] == st[k + 1..];
    CountAppendInert(st[k + 1..], tail);
  }

  /** The loop over the growing vector, from module `k` on.  An empty list marks its
      module done and leaves the loop. */
  function RebuildFrom(env: Env, pid: int, st: Stage, k: nat): Stage
    requires k <= |st|
    decreases CountUnexpanded(st[k..]), |st| - k
  {
    if k == |st| then st
    else if Unexpanded(st[k]) then
      var size := ListSize(env, pid, st[k].name);
      if size == 0 then st[k := st[k].(status := Done)]
      else
        var tail := Instances(st[k], 1, size);
        ExpansionShrinks(st, k, tail);
        RebuildFrom(env, pid, st[k := st[k].(elem := 0)] + tail, k)
    else
      assert st[k..][1..] == st[k + 1..];
      RebuildFrom(env, pid, st, k + 1)
  }

  function Rebuild(env: Env, p: Process): Process
    requires p.current < |p.stages|
  {
    WithCur(p, RebuildFrom(env, p.id, Cur(p), 0))
  }

  // ---- checkCurrentStageIsDone ------------------------------------------------------

  /** Either the process goes on, possibly in its next stage, or it has completed and
      emits processFinished_signal. */
  datatype Outcome = Goes(p: Process) | Completes

  function CheckStage(env: Env, p: Process): Outcome
    requires p.current < |p.stages|
  {
    if !StageDone(Cur(p)) then Goes(p)
    else if p.current == |p.stages| - 1 then Completes
    else Goes(Rebuild(env, p.(current := p.current + 1)))
  }

  // ---- giveJobToNode ----------------------------------------------------------------

  predicate CanRun(node: Node, name: string) {
    exists k :: 0 <= k < |node.modules| && node.modules[k].name == name && !node.modules[k].failed
  }

  predicate Eligible(m: StageModule, node: Node) {
    m.status.Wait? && CanRun(node, m.name)
  }

  /** Number of the first waiting module the node can run, or the stage size. */
  function FirstEligible(st: Stage, node: Node): (j: nat)
    ensures j <= |st|
    ensures forall k :: 0 <= k < j ==> !Eligible(st[k], node)
    ensures j < |st| ==> Eligible(st[j], node)
  {
    FirstEligibleFrom(st, node, 0)
  }

  function FirstEligibleFrom(st: Stage, node: Node, j: nat): (r: nat)
    requires j <= |st|
    ensures j <= r <= |st|
    ensures forall k :: j <= k < r ==> !Eligible(st[k], node)
    ensures r < |st| ==> Eligible(st[r], node)
    decreases |st| - j
  {
    if j == |st| || Eligible(st[j], node) then j else FirstEligibleFrom(st, node, j + 1)
  }

  /** The process has a job for the node: its first eligible module has all its inputs. */
  predicate Offers(env: Env, p: Process, node: Node)
    requires p.current < |p.stages|
  {
    var j := FirstEligible(Cur(p), node);
    j < |Cur(p)| && Ready(env, p.id, Cur(p)[j].name)
  }

  function StartModule(st: Stage, j: nat, n: int): Stage
    requires j < |st|
  {
    st[j := st[j].(status := Started, node := n)]
  }

  datatype Job = Gives(p: Process, name: string) | Refuses(p: Process) | Ends

  function GiveJob(env: Env, p: Process, n: int, node: Node): Job
    requires p.current < |p.stages|
  {
    match CheckStage(env, p)
    case Completes => Ends
    case Goes(q) =>
      if !Offers(env, q, node) then Refuses(q)
      else
        var j := FirstEligible(Cur(q), node);
        Gives(WithCur(q, StartModule(Cur(q), j, n)), Cur(q)[j].name)
  }

  // ---- clearJobOnNode, finishModuleExecutionOnNode, moduleMaxTimeReached ------------

  function Cleared(m: StageModule, n: int): StageModule {
    if m.node == n && m.status.Started? then m.(status := Wait, node := -1) else m
  }

  function ClearStage(st: Stage, n: int): (r: Stage)
    ensures |r| == |st|
    ensures forall j :: 0 <= j < |r| ==> r[j] == Cleared(st[j], n)
  {
    seq(|st|, j requires 0 <= j < |st| => Cleared(st[j], n))
  }

  function ClearJob(p: Process, n: int): Process
    requires p.current < |p.stages|
  {
    WithCur(p, ClearStage(Cur(p), n))
  }

  /** The condition of the reporting loops: not over and assigned to the node. */
  predicate Reported(m: StageModule, n: int) {
    !Over(m) && m.node == n
  }

  function Credited(m: StageModule, n: int, name: string, to: Status): StageModule {
    if Reported(m, n) && m.name == name then m.(status := to) else m
  }

  function CreditStage(st: Stage, n: int, name: string, to: Status): (r: Stage)
    ensures |r| == |st|
    ensures forall j :: 0 <= j < |r| ==> r[j] == Credited(st[j], n, name, to)
  {
    seq(|st|, j requires 0 <= j < |st| => Credited(st[j], n, name, to))
  }

  function Credit(p: Process, n: int, name: string, to: Status): Process
    requires p.current < |p.stages|
  {
    WithCur(p, CreditStage(Cur(p), n, name, to))
  }

  // ---- stopModuleByName, stopListModuleByListNum ------------------------------------

  /** Which modules a stop request names: all with a name, or one list element. */
  datatype Selector = ByName(name: string) | ByListNum(name: string, num: int)

  predicate Selected(m: StageModule, sel: Selector) {
    match sel
    case ByName(name) => m.name == name
    case ByListNum(name, num) => m.name == name && m.isList && m.elem == num
  }

  function StopOne(m: StageModule, sel: Selector): StageModule {
    if !Selected(m, sel) then m
    else if m.status.Wait? then m.(status := Stoped)
    else if m.status.Started? then m.(status := Stopping)
    else m
  }

  function StopStage(st: Stage, sel: Selector): (r: Stage)
    ensures |r| == |st|
    ensures forall j :: 0 <= j < |r| ==> r[j] == StopOne(st[j], sel)
  {
    seq(|st|, j requires 0 <= j < |st| => StopOne(st[j], sel))
  }

  function StopModules(p: Process, sel: Selector): Process
    requires p.current < |p.stages|
  {
    WithCur(p, StopStage(Cur(p), sel))
  }

  /** Nodes named by processStopModuleExecutionOnNode_signal, in emission order. */
  function StopSignals(st: Stage, sel: Selector): seq<int> {
    if st == [] then []
    else
      var m := st[|st| - 1];
      StopSignals(st[..|st| - 1], sel) + if Selected(m, sel) && m.status.Started? then [m.node] else []
  }

  // ---- gotoStage and the destructor -------------------------------------------------

  /** Nodes named by processFreeNode_signal for one stage, in emission order. */
  function FreeSignals(st: Stage): seq<int> {
    if st == [] then []
    else
      var m := st[|st| - 1];
      FreeSignals(st[..|st| - 1]) + if m.status.Started? then [m.node] else []
  }

  function FreeSignalsOf(stages: seq<Stage>, first: nat, end: nat): seq<int>
    requires first <= end <= |stages|
    decreases end
  {
    if first == end then [] else FreeSignalsOf(stages, first, end - 1) + FreeSignals(stages[end - 1])
  }

  function ResetStage(st: Stage): (r: Stage)
    ensures |r| == |st|
    ensures forall j :: 0 <= j < |r| ==> r[j] == st[j].(status := Wait, node := -1)
  {
    seq(|st|, j requires 0 <= j < |st| => st[j].(status := Wait, node := -1))
  }

  /** All stages from `stage` to the current one back to waiting, `stage` current.  The
      process has then been in every stage from the lower of `stage` and its first one on. */
  function Rewind(p: Process, stage: nat): Process
    requires stage <= p.current < |p.stages|
  {
    p.(stages := seq(|p.stages|, k requires 0 <= k < |p.stages| =>
                       if stage <= k <= p.current then ResetStage(p.stages[k]) else p.stages[k]),
       current := stage,
       start := if stage < p.start then stage else p.start)
  }
}
