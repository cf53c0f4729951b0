/** Closed runs are finite: with no arrivals, no rewinding and no clearing of failed marks,
    every step that changes the server decreases a lexicographic measure. */
module Progress {
  import opened Wrappers
  import opened Entities
  import opened ProcessSteps
  import opened ServerSteps
  import opened Ownership
  import opened OwnershipSlots
  import opened Runs
  import opened Sums

  // ---- the measure ------------------------------------------------------------------

  function RemainingStages(p: Process): nat {
    if p.current < |p.stages| then |p.stages| - p.current else 0
  }

  function OpenWork(m: StageModule): nat {
    if Over(m) then 0 else 1
  }

  function Weight(m: StageModule): nat {
    match m.status case Wait => 2 case Started => 1 case _ => 0
  }

  function Unfinished(p: Process): nat {
    if p.current < |p.stages| then Sum(Cur(p), OpenWork) else 0
  }

  function Load(p: Process): nat {
    if p.current < |p.stages| then Sum(Cur(p), Weight) else 0
  }

  function Untried(m: NodeModule): nat {
    if m.failed then 0 else 1
  }

  /** A live node counts for itself and for every module it has not failed. */
  function Usable(node: Option<Node>): nat {
    if node.Some? then 1 + Sum(node.value.modules, Untried) else 0
  }

  function Busy(node: Option<Node>): nat {
    if node.Some? && node.value.busy then 1 else 0
  }

  datatype Measure = Measure(stages: nat, unfinished: nat, usable: nat, load: nat, busy: nat)

  function MeasureOf(s: Server): Measure {
    Measure(Sum(s.processes, RemainingStages), Sum(s.processes, Unfinished),
            Sum(s.nodes, Usable), Sum(s.processes, Load), Sum(s.nodes, Busy))
  }

  predicate Less(a: Measure, b: Measure) {
    || a.stages < b.stages
    || (a.stages == b.stages && a.unfinished < b.unfinished)
    || (a.stages == b.stages && a.unfinished == b.unfinished && a.usable < b.usable)
    || (a.stages == b.stages && a.unfinished == b.unfinished && a.usable == b.usable && a.load < b.load)
    || (a.stages == b.stages && a.unfinished == b.unfinished && a.usable == b.usable && a.load == b.load &&
        a.busy < b.busy)
  }

  predicate Descends(t: Server, s: Server) {
    t == s || Less(MeasureOf(t), MeasureOf(s))
  }

  // ---- single changes ---------------------------------------------------------------

  lemma ProcessChange(s: Server, i: nat, q: Process)
    requires i < |s.processes|
    ensures var p := s.processes[i];
            var a, b := MeasureOf(SetProcess(s, i, q)), MeasureOf(s);
            && a.stages + RemainingStages(p) == b.stages + RemainingStages(q)
            && a.unfinished + Unfinished(p) == b.unfinished + Unfinished(q)
            && a.load + Load(p) == b.load + Load(q)
            && a.usable == b.usable && a.busy == b.busy
  {
    SumUpdate(s.processes, i, q, RemainingStages);
    SumUpdate(s.processes, i, q, Unfinished);
    SumUpdate(s.processes, i, q, Load);
  }

  lemma NodeChange(s: Server, n: nat, node: Node)
    requires n < |s.nodes|
    ensures var a, b := MeasureOf(SetNode(s, n, node)), MeasureOf(s);
            && a.usable + Usable(s.nodes[n]) == b.usable + Usable(Some(node))
            && a.busy + Busy(s.nodes[n]) == b.busy + Busy(Some(node))
            && a.stages == b.stages && a.unfinished == b.unfinished && a.load == b.load
  {
    SumUpdate(s.nodes, n, Some(node), Usable);
    SumUpdate(s.nodes, n, Some(node), Busy);
  }

  lemma CheckStageDescends(env: Env, s: Server, i: nat)
    requires Staged(s) && i < |s.processes|
    ensures match CheckStage(env, s.processes[i])
            case Goes(q) => Descends(SetProcess(s, i, q), s)
            case Completes => Less(MeasureOf(Retire(s, i, s.processes[i])), MeasureOf(s))
  {
    var p := s.processes[i];
    match CheckStage(env, p)
    case Goes(q) =>
      if StageDone(Cur(p)) { ProcessChange(s, i, q); } else { assert SetProcess(s, i, q) == s; }
    case Completes =>
      SumRemove(s.processes, i, RemainingStages);
  }

  lemma TakenDescends(s: Server, i: nat, j: nat, n: nat)
    requires Staged(s) && i < |s.processes| && Live(s.nodes, n)
    requires j < |Cur(s.processes[i])| && Cur(s.processes[i])[j].status.Wait?
    ensures var p := s.processes[i];
            var q := WithCur(p, StartModule(Cur(p), j, n));
            Less(MeasureOf(SetNode(SetProcess(s, i, q), n, Occupied(s.nodes[n].value, q.id, Cur(p)[j].name))),
              MeasureOf(s))
  {
    var p := s.processes[i];
    var q := WithCur(p, StartModule(Cur(p), j, n));
    ProcessChange(s, i, q);
    NodeChange(SetProcess(s, i, q), n, Occupied(s.nodes[n].value, q.id, Cur(p)[j].name));
    SumUpdate(Cur(p), j, Cur(p)[j].(status := Started, node := n), OpenWork);
    SumUpdate(Cur(p), j, Cur(p)[j].(status := Started, node := n), Weight);
  }

  lemma AskDescends(env: Env, s: Server, i: nat, n: nat)
    requires Staged(s) && i < |s.processes| && Free(s.nodes, n)
    ensures Descends(Ask(env, s, i, n), s)
  {
    CheckStageDescends(env, s, i);
    match GiveJob(env, s.processes[i], n, s.nodes[n].value)
    case Gives(q', name) =>
      var q := CheckStage(env, s.processes[i]).p;
      TakenDescends(SetProcess(s, i, q), i, FirstEligible(Cur(q), s.nodes[n].value), n);
      assert SetProcess(SetProcess(s, i, q), i, q') == SetProcess(s, i, q');
    case Refuses(q) =>
    case Ends =>
  }

  lemma PassDescends(env: Env, s: Server, i: nat, n: nat)
    requires Staged(s)
    ensures Descends(Pass(env, s, i, n).s, s)
  {
    var R := (t: Server, u: Server) => Descends(u, t);
    forall t, k: nat, m: nat ensures AskRelates(env, R, t, k, m) {
      if Staged(t) && k < |t.processes| && Free(t.nodes, m) { AskDescends(env, t, k, m); }
    }
    PassRelates(env, R, s, i, n);
  }

  /** The stage check after a change of process `i` to `p`. */
  lemma SettleDescends(env: Env, s: Server, i: nat, p: Process)
    requires Staged(s) && i < |s.processes| && p.current < |p.stages|
    ensures Descends(Settle(env, s, i, p).s, SetProcess(s, i, p))
  {
    var t := SetProcess(s, i, p);
    CheckStageDescends(env, t, i);
    match CheckStage(env, p)
    case Goes(q) => assert SetProcess(t, i, q) == SetProcess(s, i, q);
    case Completes =>
      assert Retire(t, i, p) == Retire(s, i, p);
      PassDescends(env, Retire(s, i, p), 0, 0);
  }

  /** A credited stage has no more open work than before, and less if a module was. */
  lemma CreditLowers(st: Stage, n: int, name: string, to: Status)
    requires to.Done? || to.Stoped?
    ensures Sum(CreditStage(st, n, name, to), OpenWork) <= Sum(st, OpenWork)
    ensures Sum(CreditStage(st, n, name, to), Weight) <= Sum(st, Weight)
    ensures (exists j :: 0 <= j < |st| && Reported(st[j], n) && st[j].name == name) ==>
              Sum(CreditStage(st, n, name, to), OpenWork) < Sum(st, OpenWork)
  {
    SumLess(CreditStage(st, n, name, to), st, |st|, OpenWork);
    SumLess(CreditStage(st, n, name, to), st, |st|, Weight);
    if j :| 0 <= j < |st| && Reported(st[j], n) && st[j].name == name {
      SumLess(CreditStage(st, n, name, to), st, j, OpenWork);
    }
  }

  lemma ClearNodeDescends(s: Server, n: nat)
    requires Live(s.nodes, n) && s.nodes[n].value.busy
    ensures Less(MeasureOf(ClearNode(s, n)), MeasureOf(s))
  {
    NodeChange(s, n, Idle(s.nodes[n].value));
  }

  // ---- slots ------------------------------------------------------------------------

  /** A node has one module of each name, and a module it runs is not marked failed. */
  predicate Equipped(node: Node) {
    && (forall k, l :: 0 <= k < l < |node.modules| ==> node.modules[k].name != node.modules[l].name)
    && (node.busy && !node.stopping ==> CanRun(node, node.running))
  }

  predicate AllEquipped(s: Server) {
    forall n :: 0 <= n < |s.nodes| && s.nodes[n].Some? ==> Equipped(s.nodes[n].value)
  }

  lemma {:induction false} MarkFailedLowers(ms: seq<NodeModule>, name: string, k: nat)
    requires k < |ms| && ms[k].name == name && !ms[k].failed
    requires forall l :: 0 <= l < k ==> ms[l].name != name
    ensures Sum(MarkFailed(ms, name), Untried) < Sum(ms, Untried)
  {
    var r := MarkFailed(ms, name);
    if ms[0].name == name {
      assert r[1..] == ms[1..];
    } else {
      assert r[1..] == MarkFailed(ms[1..], name);
      MarkFailedLowers(ms[1..], name, k - 1);
    }
  }

  lemma {:induction false} MarkFailedRaisesNot(ms: seq<NodeModule>, name: string)
    ensures Sum(MarkFailed(ms, name), Untried) <= Sum(ms, Untried)
  {
    if ms != [] {
      var r := MarkFailed(ms, name);
      if ms[0].name == name {
        assert r[1..] == ms[1..];
      } else {
        assert r[1..] == MarkFailed(ms[1..], name);
        MarkFailedRaisesNot(ms[1..], name);
      }
    }
  }

  /** No module of the process is on the node: only the node changes. */
  lemma EmptyBounceDescends(env: Env, s: Server, n: nat, name: string)
    requires Owned(s, -1) && Addressed(s, n) && Unclaimed(s, n)
    ensures Less(MeasureOf(Bounce(env, s, n, name).s), MeasureOf(s))
  {
    AddresseeIsUnique(s, n);
    var i := Addressee(s, n);
    var p := s.processes[i];
    assert Claimless(p, n);
    forall j | 0 <= j < |Cur(p)|
      ensures Cleared(Cur(p)[j], n) == Cur(p)[j]
    {
      assert Active(Cur(p)[j]) ==> Cur(p)[j].node != n;
    }
    assert ClearStage(Cur(p), n) == Cur(p);
    assert p.stages[p.current := Cur(p)] == p.stages && s.processes[i := p] == s.processes;
    var u := AddFailed(s, n, name);
    MarkFailedRaisesNot(s.nodes[n].value.modules, name);
    NodeChange(s, n, u.nodes[n].value);
    NodeChange(u, n, Idle(u.nodes[n].value));
    PassDescends(env, ClearNode(u, n), 0, 0);
  }

  /** A module waits again: the load may grow, nothing else does. */
  lemma ClearJobMeasure(s: Server, i: nat, n: nat)
    requires Staged(s) && i < |s.processes|
    ensures var a, b := MeasureOf(SetProcess(s, i, ClearJob(s.processes[i], n))), MeasureOf(s);
            a.stages == b.stages && a.unfinished == b.unfinished && a.usable == b.usable
  {
    var p := s.processes[i];
    ProcessChange(s, i, ClearJob(p, n));
    SumSame(ClearStage(Cur(p), n), Cur(p), OpenWork);
  }

  /** A node that has failed one more module and is freed. */
  lemma BarMeasure(s: Server, n: nat, name: string)
    requires Live(s.nodes, n) && Equipped(s.nodes[n].value) && CanRun(s.nodes[n].value, name)
    ensures var a, b := MeasureOf(ClearNode(AddFailed(s, n, name), n)), MeasureOf(s);
            a.stages == b.stages && a.unfinished == b.unfinished && a.usable < b.usable
  {
    var ms := s.nodes[n].value.modules;
    var k :| 0 <= k < |ms| && ms[k].name == name && !ms[k].failed;
    MarkFailedLowers(ms, name, k);
    var u := AddFailed(s, n, name);
    NodeChange(s, n, u.nodes[n].value);
    NodeChange(u, n, Idle(u.nodes[n].value));
  }

  lemma BounceDescends(env: Env, s: Server, n: nat, name: string)
    requires Staged(s) && Addressed(s, n) && Equipped(s.nodes[n].value) && CanRun(s.nodes[n].value, name)
    ensures Less(MeasureOf(Bounce(env, s, n, name).s), MeasureOf(s))
  {
    hide MeasureOf, Equipped, CanRun, Pass;
    var i := Addressee(s, n);
    var t := SetProcess(s, i, ClearJob(s.processes[i], n));
    ClearJobMeasure(s, i, n);
    BarMeasure(t, n, name);
    PassDescends(env, ClearNode(AddFailed(t, n, name), n), 0, 0);
  }

  lemma CloseDescends(env: Env, s: Server, n: nat, name: string, to: Status)
    requires Staged(s) && Addressed(s, n) && (to.Done? || to.Stoped?)
    requires s.nodes[n].value.busy && !Close(env, s, n, name, to).strayed
    ensures Less(MeasureOf(Close(env, s, n, name, to).s), MeasureOf(s))
  {
    var i := Addressee(s, n);
    var p := s.processes[i];
    var q := Credit(p, n, name, to);
    ProcessChange(s, i, q);
    CreditLowers(Cur(p), n, name, to);
    SettleDescends(env, s, i, q);
    var r := Settle(env, s, i, q);
    SettleKeepsBusy(env, s, i, q, n);
    ClearNodeDescends(r.s, n);
    PassDescends(env, ClearNode(r.s, n), 0, 0);
  }

  /** The queue loop leaves busy nodes alone. */
  lemma PassKeepsBusy(env: Env, s: Server, i: nat, n: nat, m: nat)
    requires Staged(s) && Live(s.nodes, m) && s.nodes[m].value.busy
    ensures Pass(env, s, i, n).s.nodes[m] == s.nodes[m]
  {
    var R := (t: Server, u: Server) => Live(t.nodes, m) && t.nodes[m].value.busy ==>
      Live(u.nodes, m) && u.nodes[m] == t.nodes[m];
    forall t, k: nat, l: nat ensures AskRelates(env, R, t, k, l) {}
    PassRelates(env, R, s, i, n);
  }

  lemma SettleKeepsBusy(env: Env, s: Server, i: nat, p: Process, m: nat)
    requires Staged(s) && i < |s.processes| && p.current < |p.stages| && Live(s.nodes, m) && s.nodes[m].value.busy
    ensures Settle(env, s, i, p).s.nodes[m] == s.nodes[m]
  {
    if CheckStage(env, p).Completes? { PassKeepsBusy(env, Retire(s, i, p), 0, 0, m); }
  }

  lemma StopFailedDescends(env: Env, s: Server, n: nat, name: string)
    requires Owned(s, -1) && Addressed(s, n) && !StopReplySlot(env, s, n, name, false).strayed
    ensures Less(MeasureOf(StopReplySlot(env, s, n, name, false).s), MeasureOf(s))
  {
    var i := Addressee(s, n);
    var p := s.processes[i];
    var q := Credit(p, n, name, Done);
    var t := ClearNode(s, n);
    assert NodeSettled(s, n);
    hide NodeSettled, Owned, Pass, Settle;
    ClearNodeDescends(s, n);
    NodeChange(s, n, Idle(s.nodes[n].value));
    ProcessChange(t, i, q);
    CreditLowers(Cur(p), n, name, Done);
    SettleDescends(env, t, i, q);
    var r := Settle(env, t, i, q);
    if !r.strayed { PassDescends(env, r.s, 0, 0); }
  }

  lemma StopReplyDescends(env: Env, s: Server, n: nat, name: string, success: bool)
    requires Owned(s, -1) && !StopReplySlot(env, s, n, name, success).strayed
    ensures Descends(StopReplySlot(env, s, n, name, success).s, s)
    ensures Live(s.nodes, n) && s.nodes[n].value.busy ==>
              Less(MeasureOf(StopReplySlot(env, s, n, name, success).s), MeasureOf(s))
  {
    if Live(s.nodes, n) {
      assert NodeSettled(s, n);
      if !Addressed(s, n) {
        if s.nodes[n].value.busy { ClearNodeDescends(s, n); } else { assert ClearNode(s, n) == s; }
        PassDescends(env, ClearNode(s, n), 0, 0);
      } else if success {
        CloseDescends(env, s, n, name, Done);
      } else {
        StopFailedDescends(env, s, n, name);
      }
    }
  }

  lemma NodeLostDescends(s: Server, n: nat)
    requires Staged(s)
    ensures Descends(NodeLostSlot(s, n).s, s)
  {
    if Live(s.nodes, n) {
      var ps := ClearJobs(s.processes, n);
      forall k | 0 <= k < |ps| ensures Unfinished(ps[k]) == Unfinished(s.processes[k]) {
        SumSame(Cur(ps[k]), Cur(s.processes[k]), OpenWork);
      }
      SumSame(ps, s.processes, RemainingStages);
      SumSame(ps, s.processes, Unfinished);
      SumUpdate(s.nodes, n, None, Usable);
    }
  }

  lemma ProcessStoppedDescends(env: Env, s: Server, pid: int)
    requires Staged(s)
    ensures Descends(ProcessStoppedSlot(env, s, pid).s, s)
  {
    var i := FindProcess(s.processes, pid);
    if i < |s.processes| {
      SumRemove(s.processes, i, RemainingStages);
      PassDescends(env, s.(processes := RemoveAt(s.processes, i),
                           nodes := FreeNodes(s.nodes, FreeSignals(Cur(s.processes[i])))), 0, 0);
    }
  }

  lemma NothingToStop(s: Server, i: nat, sel: Selector)
    requires Owned(s, -1) && i < |s.processes|
    requires var st := Cur(s.processes[i]);
             forall j :: 0 <= j < |st| && Selected(st[j], sel) ==> !st[j].status.Wait? && !st[j].status.Started?
    ensures StopModules(s.processes[i], sel) == s.processes[i]
    ensures StopNodes(s.nodes, s.processes, StopSignals(Cur(s.processes[i]), sel)) == s.nodes
  {
    var st := Cur(s.processes[i]);
    assert StopStage(st, sel) == st;
    StopReachesNodes(s, i, sel);
    forall m | 0 <= m < |s.nodes| ensures !StopSelectedOn(st, sel, m) {}
  }

  /** A stop request that meets a waiting or running module. */
  lemma StopMeasure(s: Server, i: nat, sel: Selector, nodes: seq<Option<Node>>, j: nat)
    requires Staged(s) && i < |s.processes| && StoppedFor(s, i, sel, nodes)
    requires var st := Cur(s.processes[i]);
             j < |st| && Selected(st[j], sel) && (st[j].status.Wait? || st[j].status.Started?)
    ensures Less(MeasureOf(SetProcess(s, i, StopModules(s.processes[i], sel)).(nodes := nodes)), MeasureOf(s))
  {
    ProcessChange(s, i, StopModules(s.processes[i], sel));
    StopLowers(Cur(s.processes[i]), sel, j);
    SumSame(nodes, s.nodes, Usable);
  }

  lemma StopRequestedDescends(s: Server, pid: int, sel: Selector)
    requires Owned(s, -1)
    ensures Descends(StopRequestedSlot(s, pid, sel).s, s)
  {
    hide NodeSettled, Linked, StoppedFor, Less, MeasureOf;
    var i := FindProcess(s.processes, pid);
    if i < |s.processes| {
      var st, t := Cur(s.processes[i]), StopRequestedSlot(s, pid, sel).s;
      if j :| 0 <= j < |st| && Selected(st[j], sel) && (st[j].status.Wait? || st[j].status.Started?) {
        StopReachesNodes(s, i, sel);
        StopMeasure(s, i, sel, t.nodes, j);
      } else {
        NothingToStop(s, i, sel);
        assert t == s;
      }
    }
  }

  lemma StopLowers(st: Stage, sel: Selector, j: nat)
    requires j < |st| && Selected(st[j], sel) && (st[j].status.Wait? || st[j].status.Started?)
    ensures var r := StopStage(st, sel);
            && Sum(r, OpenWork) <= Sum(st, OpenWork)
            && (Sum(r, OpenWork) < Sum(st, OpenWork) || Sum(r, Weight) < Sum(st, Weight))
  {
    SumLess(StopStage(st, sel), st, j, OpenWork);
    SumLess(StopStage(st, sel), st, j, Weight);
  }

  // ---- closed runs ------------------------------------------------------------------

  /** No arrivals, no rewinding, no clearing of marks, no module update; a node reports
      the module it was given. */
  predicate Closed(s: Server, e: Event) {
    match e
    case PrepareFailed(n, name, code) => code != MD5_DIFFERS && (Live(s.nodes, n) ==> s.nodes[n].value.running == name)
    case StartFailed(n, name) => Live(s.nodes, n) ==> s.nodes[n].value.running == name
    case PrepareSucceeded(n, name) => true
    case StartSucceeded(n, name) => true
    case EndSucceeded(n, name) => true
    case EndFailed(n, name, code) => true
    case StopReply(n, name, success) => true
    case NodeLost(n) => true
    case ProcessStopped(pid) => true
    case StopRequested(pid, sel) => true
    case _ => false
  }

  /** A failed preparation or start of the module its node was given. */
  lemma FailureDescends(env: Env, s: Server, n: nat, name: string)
    requires Owned(s, -1) && AllEquipped(s) && Addressed(s, n) && s.nodes[n].value.running == name
    requires !s.nodes[n].value.stopping || Unclaimed(s, n)
    ensures Less(MeasureOf(Bounce(env, s, n, name).s), MeasureOf(s))
  {
    AddresseeIsUnique(s, n);
    if s.nodes[n].value.stopping { EmptyBounceDescends(env, s, n, name); } else { BounceDescends(env, s, n, name); }
  }

  lemma EndDescends(env: Env, s: Server, n: nat, name: string, to: Status)
    requires Owned(s, -1) && Addressed(s, n) && (to.Done? || to.Stoped?)
    requires !Close(env, s, n, name, to).strayed
    ensures Less(MeasureOf(Close(env, s, n, name, to).s), MeasureOf(s))
  {
    AddresseeIsUnique(s, n);
    CloseDescends(env, s, n, name, to);
  }

  /** Every step of a closed run changes nothing or decreases the measure. */
  lemma ClosedStepDescends(env: Env, s: Server, e: Event)
    requires Owned(s, -1) && AllEquipped(s) && Enabled(s, e) && Regular(s, e) && Closed(s, e)
    requires !Step(env, s, e).strayed
    ensures Descends(Step(env, s, e).s, s)
  {
    match e
    case PrepareFailed(n, name, code) => if Addressed(s, n) { FailureDescends(env, s, n, name); }
    case StartFailed(n, name) => if Addressed(s, n) { FailureDescends(env, s, n, name); }
    case PrepareSucceeded(n, name) =>
    case StartSucceeded(n, name) =>
    case EndSucceeded(n, name) => if Addressed(s, n) { EndDescends(env, s, n, name, Done); }
    case EndFailed(n, name, code) =>
      if Addressed(s, n) {
        if code == OUTPUT_MISSING { FailureDescends(env, s, n, name); } else { EndDescends(env, s, n, name, Stoped); }
      }
    case StopReply(n, name, success) => StopReplyDescends(env, s, n, name, success);
    case NodeLost(n) => NodeLostDescends(s, n);
    case ProcessStopped(pid) => ProcessStoppedDescends(env, s, pid);
    case StopRequested(pid, sel) => StopRequestedDescends(s, pid, sel);
  }

  lemma PassEquips(env: Env, s: Server)
    requires Staged(s) && AllEquipped(s)
    ensures AllEquipped(CheckQueue(env, s).s)
  {
    var R := (t: Server, u: Server) => AllEquipped(t) ==> AllEquipped(u);
    forall t, k: nat, m: nat ensures AskRelates(env, R, t, k, m) {}
    PassRelates(env, R, s, 0, 0);
  }

  lemma {:induction false} MarkFailedNames(ms: seq<NodeModule>, name: string, k: nat)
    requires k < |ms|
    ensures MarkFailed(ms, name)[k].name == ms[k].name
  {
    if ms[0].name != name && k > 0 { MarkFailedNames(ms[1..], name, k - 1); }
  }

  lemma BounceEquips(env: Env, s: Server, n: nat, name: string)
    requires Staged(s) && Addressed(s, n) && AllEquipped(s)
    ensures AllEquipped(Bounce(env, s, n, name).s)
  {
    var i := Addressee(s, n);
    var t := ClearNode(AddFailed(SetProcess(s, i, ClearJob(s.processes[i], n)), n, name), n);
    forall k | 0 <= k < |t.nodes[n].value.modules|
      ensures t.nodes[n].value.modules[k].name == s.nodes[n].value.modules[k].name
    {
      MarkFailedNames(s.nodes[n].value.modules, name, k);
    }
    PassEquips(env, t);
  }

  lemma SettleEquips(env: Env, s: Server, i: nat, p: Process)
    requires Staged(s) && i < |s.processes| && p.current < |p.stages| && AllEquipped(s)
    ensures AllEquipped(Settle(env, s, i, p).s)
  {
    if CheckStage(env, p).Completes? { PassEquips(env, Retire(s, i, p)); }
  }

  lemma CloseEquips(env: Env, s: Server, n: nat, name: string, to: Status)
    requires Staged(s) && Addressed(s, n) && AllEquipped(s)
    ensures AllEquipped(Close(env, s, n, name, to).s)
  {
    var i := Addressee(s, n);
    SettleEquips(env, s, i, Credit(s.processes[i], n, name, to));
    var r := Settle(env, s, i, Credit(s.processes[i], n, name, to));
    if !r.strayed { PassEquips(env, ClearNode(r.s, n)); }
  }

  lemma StopReplyEquips(env: Env, s: Server, n: nat, name: string, success: bool)
    requires Staged(s) && AllEquipped(s)
    ensures AllEquipped(StopReplySlot(env, s, n, name, success).s)
  {
    if Live(s.nodes, n) {
      if !Addressed(s, n) {
        PassEquips(env, ClearNode(s, n));
      } else if success {
        CloseEquips(env, s, n, name, Done);
      } else {
        var i, t := Addressee(s, n), ClearNode(s, n);
        var q := Credit(s.processes[i], n, name, Done);
        SettleEquips(env, t, i, q);
        var r := Settle(env, t, i, q);
        if !r.strayed { PassEquips(env, r.s); }
      }
    }
  }

  lemma ProcessStoppedEquips(env: Env, s: Server, pid: int)
    requires Staged(s) && AllEquipped(s)
    ensures AllEquipped(ProcessStoppedSlot(env, s, pid).s)
  {
    var i := FindProcess(s.processes, pid);
    if i < |s.processes| {
      var signals := FreeSignals(Cur(s.processes[i]));
      var t := s.(processes := RemoveAt(s.processes, i), nodes := FreeNodes(s.nodes, signals));
      forall m | 0 <= m < |t.nodes| && t.nodes[m].Some? ensures Equipped(t.nodes[m].value) {
        FreeNodesAt(s.nodes, signals, m);
      }
      PassEquips(env, t);
    }
  }

  lemma StopRequestedEquips(s: Server, pid: int, sel: Selector)
    requires Staged(s) && AllEquipped(s)
    ensures AllEquipped(StopRequestedSlot(s, pid, sel).s)
  {
    var i := FindProcess(s.processes, pid);
    if i < |s.processes| {
      var signals := StopSignals(Cur(s.processes[i]), sel);
      forall m | 0 <= m < |s.nodes|
        ensures var node := StopNodes(s.nodes, s.processes, signals)[m]; node.Some? ==> Equipped(node.value)
      {
        StopNodesAt(s.nodes, s.processes, signals, m);
      }
    }
  }

  /** Closed steps keep the nodes equipped. */
  lemma ClosedStepEquips(env: Env, s: Server, e: Event)
    requires Staged(s) && AllEquipped(s) && Enabled(s, e) && Closed(s, e) && Regular(s, e)
    ensures AllEquipped(Step(env, s, e).s)
  {
    hide Bounce, Close, StopReplySlot, ProcessStoppedSlot, StopRequestedSlot;
    match e
    case PrepareFailed(n, name, code) => if Addressed(s, n) { BounceEquips(env, s, n, name); }
    case StartFailed(n, name) => if Addressed(s, n) { BounceEquips(env, s, n, name); }
    case PrepareSucceeded(n, name) =>
    case StartSucceeded(n, name) =>
    case EndSucceeded(n, name) => if Addressed(s, n) { CloseEquips(env, s, n, name, Done); }
    case EndFailed(n, name, code) =>
      if Addressed(s, n) {
        if code == OUTPUT_MISSING { BounceEquips(env, s, n, name); } else { CloseEquips(env, s, n, name, Stoped); }
      }
    case StopReply(n, name, success) => StopReplyEquips(env, s, n, name, success);
    case NodeLost(n) =>
    case ProcessStopped(pid) => ProcessStoppedEquips(env, s, pid);
    case StopRequested(pid, sel) => StopRequestedEquips(s, pid, sel);
  }

  /** A closed run keeps ownership and equipment. */
  lemma ClosedStepStays(env: Env, s: Server, e: Event)
    requires Owned(s, -1) && AllEquipped(s) && Enabled(s, e) && Regular(s, e) && Closed(s, e)
    requires !Step(env, s, e).strayed
    ensures Owned(Step(env, s, e).s, -1) && AllEquipped(Step(env, s, e).s) && Descends(Step(env, s, e).s, s)
  {
    StepKeeps(env, s, e);
    ClosedStepEquips(env, s, e);
    ClosedStepDescends(env, s, e);
  }

  /** At time `k` the run takes a closed step. */
  ghost predicate ClosedMove(run: nat -> Server, moves: nat -> Move, k: nat) {
    && CanMove(run(k), moves(k)) && Regular(run(k), moves(k).event) && Closed(run(k), moves(k).event)
    && After(run(k), moves(k)) == Result(run(k + 1), false)
  }

  /** A run without end: the queue loop never leaves its vector in it.  Ownership and
      equipment are asked of the first state only. */
  ghost predicate EndlessRun(run: nat -> Server, moves: nat -> Move) {
    Owned(run(0), -1) && AllEquipped(run(0)) && forall k: nat :: ClosedMove(run, moves, k)
  }

  lemma {:induction false} EndlessRunStays(run: nat -> Server, moves: nat -> Move, k: nat)
    requires EndlessRun(run, moves)
    ensures Owned(run(k), -1) && AllEquipped(run(k))
  {
    hide Owned, AllEquipped, Regular, Closed, Enabled, Step;
    if k > 0 {
      EndlessRunStays(run, moves, k - 1);
      assert ClosedMove(run, moves, k - 1);
      ClosedStepStays(moves(k - 1).env, run(k - 1), moves(k - 1).event);
    }
  }

  ghost predicate Rests(run: nat -> Server, k: nat) {
    run(k + 1) == run(k)
  }

  ghost predicate RestsFrom(run: nat -> Server, k: nat) {
    forall l: nat :: l >= k ==> Rests(run, l)
  }

  predicate AtMost(a: Measure, b: Measure) {
    a == b || Less(a, b)
  }

  ghost predicate Falls(f: nat -> Measure, k: nat) {
    AtMost(f(k + 1), f(k))
  }

  lemma {:induction false} FallingChain(f: nat -> Measure, k: nat, l: nat)
    requires k <= l && forall m: nat :: Falls(f, m)
    ensures AtMost(f(l), f(k))
    decreases l
  {
    if k < l {
      FallingChain(f, k, l - 1);
      assert Falls(f, l - 1);
    }
  }

  lemma MoveDescends(run: nat -> Server, moves: nat -> Move, k: nat)
    requires EndlessRun(run, moves)
    ensures AtMost(MeasureOf(run(k + 1)), MeasureOf(run(k)))
    ensures !Rests(run, k) ==> Less(MeasureOf(run(k + 1)), MeasureOf(run(k)))
  {
    EndlessRunStays(run, moves, k);
    assert ClosedMove(run, moves, k);
    ClosedStepDescends(moves(k).env, run(k), moves(k).event);
  }

  /** Every endless closed run comes to rest: from some time on no step changes anything. */
  lemma {:induction false} ClosedRunsComeToRest(run: nat -> Server, moves: nat -> Move, k: nat)
    requires EndlessRun(run, moves)
    ensures exists l: nat :: l >= k && RestsFrom(run, l)
    decreases MeasureOf(run(k)).stages, MeasureOf(run(k)).unfinished, MeasureOf(run(k)).usable,
              MeasureOf(run(k)).load, MeasureOf(run(k)).busy
  {
    hide EndlessRun;
    if l: nat :| l >= k && !Rests(run, l) {
      var f := (m: nat) => MeasureOf(run(m));
      forall m: nat ensures Falls(f, m) { MoveDescends(run, moves, m); }
      FallingChain(f, k, l);
      MoveDescends(run, moves, l);
      ClosedRunsComeToRest(run, moves, l + 1);
    } else {
      assert RestsFrom(run, k);
    }
  }
}
