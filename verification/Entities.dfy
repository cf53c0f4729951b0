/** The entities the job server keeps, as values: stage modules, processes, nodes and
    the server itself.  The classes of module Scheduler hold the same data in
    mutable fields and are proved against the functions on these values. */
module Entities {
  import opened Wrappers

  /** MODULE_STATUS_* of src/lib/module.h; FAILED is never assigned by the server. */
  datatype Status = Wait | Started | Stopping | Done | Stoped

  /** A module of a process stage.  `node` is executed_on_node, `elem` is list_element_num. */
  datatype StageModule = StageModule(name: string, status: Status, node: int, isList: bool, elem: int)

  type Stage = seq<StageModule>

  /** A process of type "xml".  `start` is the lowest stage the process has been in: the one
      it was registered in, or an earlier one asked for since. */
  datatype Process = Process(id: int, stages: seq<Stage>, current: nat, start: nat)

  datatype NodeModule = NodeModule(name: string, failed: bool)

  datatype Node = Node(busy: bool, stopping: bool, processId: int, running: string, modules: seq<NodeModule>)

  /** The queue, the vector of nodes (NULL once disconnected) and the id counter.
      `finished` is the history of completed processes, each as it was when it completed. */
  datatype Server = Server(processes: seq<Process>, nodes: seq<Option<Node>>, counter: int, finished: seq<Process>)

  /** What the file system answers during one step: the number of elements in the list a
      list module reads, and whether a module's input parameters are all defined.
      Both are looked up by process and module name. */
  datatype Env = Env(listSize: map<(int, string), nat>, ready: set<(int, string)>)

  function ListSize(env: Env, pid: int, name: string): nat {
    if (pid, name) in env.listSize then env.listSize[(pid, name)] else 0
  }

  predicate Ready(env: Env, pid: int, name: string) {
    (pid, name) in env.ready
  }

  predicate Over(m: StageModule) {
    m.status.Done? || m.status.Stoped?
  }

  predicate Active(m: StageModule) {
    m.status.Started? || m.status.Stopping?
  }

  predicate StageDone(st: Stage) {
    forall j :: 0 <= j < |st| ==> Over(st[j])
  }

  /** The stage a process is in. */
  function Cur(p: Process): Stage
    requires p.current < |p.stages|
  {
    p.stages[p.current]
  }

  function WithCur(p: Process, st: Stage): Process
    requires p.current < |p.stages|
  {
    p.(stages := p.stages[p.current := st])
  }

  predicate Live(nodes: seq<Option<Node>>, n: int) {
    0 <= n < |nodes| && nodes[n].Some?
  }

  predicate Free(nodes: seq<Option<Node>>, n: int) {
    Live(nodes, n) && !nodes[n].value.busy
  }

  function RemoveAt<T>(s: seq<T>, i: nat): (r: seq<T>)
    requires i < |s|
    ensures |r| == |s| - 1
    ensures forall k :: 0 <= k < i ==> r[k] == s[k]
    ensures forall k :: i <= k < |r| ==> r[k] == s[k + 1]
  {
    s[..i] + s[i + 1..]
  }
}
