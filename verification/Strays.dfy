/** When the queue loop runs past the end of the process vector. */
module Strays {
  import opened Wrappers
  import opened Entities
  import opened ProcessSteps
  import opened ServerSteps
  import opened QueuePass
  import opened Sums

  // ---- finished processes -----------------------------------------------------------

  /** The loop will find the process complete, if it asks it often enough: its stage is over,
      and so is every later one once its lists are expanded. */
  predicate Finished(env: Env, p: Process)
    requires p.current < |p.stages|
  {
    && StageDone(Cur(p))
    && forall k :: p.current < k < |p.stages| ==> StageDone(RebuildFrom(env, p.id, p.stages[k], 0))
  }

  predicate NoneFinishedBut(env: Env, s: Server, d: int) {
    Staged(s) && forall i :: 0 <= i < |s.processes| && i != d ==> !Finished(env, s.processes[i])
  }

  predicate NoneFinished(env: Env, s: Server) {
    NoneFinishedBut(env, s, -1)
  }

  lemma CheckKeepsFinished(env: Env, p: Process)
    requires p.current < |p.stages|
    ensures match CheckStage(env, p)
            case Completes => Finished(env, p)
            case Goes(q) =>
              && q.current < |q.stages| && |q.stages| == |p.stages| && (Finished(env, q) <==> Finished(env, p))
              && (Finished(env, p) ==> q.current == p.current + 1)
  {
    if StageDone(Cur(p)) && p.current + 1 < |p.stages| {
      var q := Rebuild(env, p.(current := p.current + 1));
      assert Cur(q) == RebuildFrom(env, p.id, p.stages[p.current + 1], 0);
      forall k | q.current < k < |q.stages| ensures q.stages[k] == p.stages[k] {}
    }
  }

  /** A question to a process that is not finished removes none and finishes none. */
  lemma AskUnfinished(env: Env, s: Server, i: nat, n: nat)
    requires Staged(s) && i < |s.processes| && Free(s.nodes, n) && !Finished(env, s.processes[i])
    ensures var t := Ask(env, s, i, n);
            && |t.processes| == |s.processes| && !Finished(env, t.processes[i])
            && forall k :: 0 <= k < |s.processes| && k != i ==> t.processes[k] == s.processes[k]
  {
    CheckKeepsFinished(env, s.processes[i]);
    match GiveJob(env, s.processes[i], n, s.nodes[n].value)
    case Gives(q', name) =>
      var q := CheckStage(env, s.processes[i]).p;
      assert !Over(Cur(q')[FirstEligible(Cur(q), s.nodes[n].value)]);
    case Refuses(q) =>
    case Ends =>
  }

  /** A question to a finished process moves it on by one stage, or removes it. */
  lemma AskFinished(env: Env, s: Server, i: nat, n: nat)
    requires Staged(s) && i < |s.processes| && Free(s.nodes, n) && Finished(env, s.processes[i])
    ensures var p, t := s.processes[i], Ask(env, s, i, n);
            if p.current == |p.stages| - 1 then t == Retire(s, i, p)
            else exists q :: t == SetProcess(s, i, q) && q.current == p.current + 1 < |q.stages| == |p.stages|
                             && Finished(env, q)
  {
    var p, node := s.processes[i], s.nodes[n].value;
    CheckKeepsFinished(env, p);
    if p.current < |p.stages| - 1 {
      var q := CheckStage(env, p).p;
      assert forall j :: 0 <= j < |Cur(q)| ==> !Eligible(Cur(q)[j], node);
      assert Ask(env, s, i, n) == SetProcess(s, i, q);
    }
  }

  // ---- no process, or one before the last, is finished ------------------------------

  /** The loop stays inside its vector, whatever the queue, when no process is finished. */
  lemma {:induction false} NoneFinishedStays(env: Env, s: Server, i: nat, n: nat)
    requires NoneFinished(env, s) && i <= |s.processes|
    ensures var r := Pass(env, s, i, n);
            !r.strayed && NoneFinished(env, r.s) && |r.s.processes| == |s.processes|
    decreases |s.processes| - i, |s.nodes| - n
  {
    hide Ask, Finished;
    if i >= |s.processes| {
    } else if n >= |s.nodes| {
      NoneFinishedStays(env, s, i + 1, 0);
    } else if !Free(s.nodes, n) {
      NoneFinishedStays(env, s, i, n + 1);
    } else {
      AskUnfinished(env, s, i, n);
      NoneFinishedStays(env, Ask(env, s, i, n), i, n + 1);
    }
  }

  /** A finished process that is not the last one leaves the queue without harm. */
  lemma {:induction false} FinishedInsideStays(env: Env, s: Server, d: nat, i: nat, n: nat)
    requires NoneFinishedBut(env, s, d) && d < |s.processes| - 1 && i <= |s.processes|
    ensures !Pass(env, s, i, n).strayed
    decreases |s.processes| - i, |s.nodes| - n
  {
    hide Ask, Finished;
    if i >= |s.processes| {
    } else if n >= |s.nodes| {
      FinishedInsideStays(env, s, d, i + 1, 0);
    } else if !Free(s.nodes, n) {
      FinishedInsideStays(env, s, d, i, n + 1);
    } else {
      var p, t := s.processes[i], Ask(env, s, i, n);
      if !Finished(env, p) {
        AskUnfinished(env, s, i, n);
        FinishedInsideStays(env, t, d, i, n + 1);
      } else {
        AskFinished(env, s, i, n);
        if p.current < |p.stages| - 1 {
          FinishedInsideStays(env, t, d, i, n + 1);
        } else {
          assert NoneFinished(env, t);
          NoneFinishedStays(env, t, 0, 0);
          NoneFinishedStays(env, Pass(env, t, 0, 0).s, i, n + 1);
        }
      }
    }
  }

  // ---- the last process is finished -------------------------------------------------

  function Queued(s: Server, p: Process): Server {
    s.(processes := s.processes + [p])
  }

  function FreeOne(node: Option<Node>): nat {
    if node.Some? && !node.value.busy then 1 else 0
  }

  function CountFree(nodes: seq<Option<Node>>): nat {
    Sum(nodes, FreeOne)
  }

  lemma AskQueued(env: Env, s: Server, p: Process, i: nat, n: nat)
    requires Staged(s) && i < |s.processes| && p.current < |p.stages| && Free(s.nodes, n)
    requires !Finished(env, s.processes[i])
    ensures Staged(Queued(s, p)) && Ask(env, Queued(s, p), i, n) == Queued(Ask(env, s, i, n), p)
  {
    var q := s.processes[i];
    assert Queued(s, p).processes[i] == q;
    CheckKeepsFinished(env, q);
    match GiveJob(env, q, n, s.nodes[n].value)
    case Gives(q', name) => assert SetProcess(Queued(s, p), i, q') == Queued(SetProcess(s, i, q'), p);
    case Refuses(q') => assert SetProcess(Queued(s, p), i, q') == Queued(SetProcess(s, i, q'), p);
    case Ends =>
  }

  /** A process at the end of the queue does not change what the ones before it get. */
  lemma {:induction false} PassBeforeLast(env: Env, s: Server, p: Process, i: nat, n: nat)
    requires NoneFinished(env, s) && i < |s.processes| && p.current < |p.stages|
    ensures Staged(Queued(s, p)) && Staged(Queued(Pass(env, s, i, n).s, p))
    ensures Pass(env, Queued(s, p), i, n) == Pass(env, Queued(Pass(env, s, i, n).s, p), |s.processes|, 0)
    decreases |s.processes| - i, |s.nodes| - n
  {
    hide Ask, Finished;
    NoneFinishedStays(env, s, i, n);
    if n >= |s.nodes| {
      if i + 1 < |s.processes| { PassBeforeLast(env, s, p, i + 1, 0); }
    } else if !Free(s.nodes, n) {
      PassBeforeLast(env, s, p, i, n + 1);
    } else {
      AskUnfinished(env, s, i, n);
      AskQueued(env, s, p, i, n);
      PassBeforeLast(env, Ask(env, s, i, n), p, i, n + 1);
    }
  }

  /** A finished process at the end of the queue moves on by one stage for every free node,
      and is removed, with the index on it, at the node after its last stage. */
  lemma {:induction false} LastCompletes(env: Env, s: Server, p: Process, n: nat)
    requires Staged(s) && p.current < |p.stages| && Finished(env, p) && n <= |s.nodes|
    ensures Staged(Queued(s, p))
    ensures Pass(env, Queued(s, p), |s.processes|, n).strayed <==> CountFree(s.nodes[n..]) >= |p.stages| - p.current
    decreases |s.nodes| - n
  {
    hide Ask, Finished;
    var t := Queued(s, p);
    if n < |s.nodes| {
      assert s.nodes[n..][1..] == s.nodes[n + 1..];
      if Free(s.nodes, n) {
        AskFinished(env, t, |s.processes|, n);
        if p.current == |p.stages| - 1 {
          assert |Pass(env, Retire(t, |s.processes|, p), 0, 0).s.processes| <= |s.processes|;
        } else {
          var q :| Ask(env, t, |s.processes|, n) == SetProcess(t, |s.processes|, q) &&
            q.current == p.current + 1 < |q.stages| == |p.stages|
                   && Finished(env, q);
          assert SetProcess(t, |s.processes|, q) == Queued(s, q);
          LastCompletes(env, s, q, n + 1);
        }
      } else {
        LastCompletes(env, s, p, n + 1);
      }
    } else {
      assert !Pass(env, t, |s.processes| + 1, 0).strayed;
    }
  }

  /** The queue without its last process. */
  function Shortened(s: Server): Server
    requires s.processes != []
  {
    s.(processes := s.processes[..|s.processes| - 1])
  }

  /** Any queue with one finished process in it: the loop runs past the end of the vector
      exactly when that process is the last one, and the processes before it leave as many
      nodes free as it has stages left, the current one included.  The completion is then
      discovered inside the loop, which goes on with an index that is gone. */
  lemma StraysIff(env: Env, s: Server, d: nat)
    requires NoneFinishedBut(env, s, d) && d < |s.processes| && Finished(env, s.processes[d])
    ensures Staged(Shortened(s))
    ensures var p := s.processes[d];
            CheckQueue(env, s).strayed <==>
              d == |s.processes| - 1 && CountFree(CheckQueue(env, Shortened(s)).s.nodes) >= |p.stages| - p.current
  {
    hide Finished;
    if d < |s.processes| - 1 {
      FinishedInsideStays(env, s, d, 0, 0);
    } else {
      var p, before := s.processes[d], Shortened(s);
      assert s == Queued(before, p) && NoneFinished(env, before);
      NoneFinishedStays(env, before, 0, 0);
      if d > 0 { PassBeforeLast(env, before, p, 0, 0); }
      var r := CheckQueue(env, before).s;
      LastCompletes(env, r, p, 0);
      assert r.nodes[0..] == r.nodes;
    }
  }

  /** No process has a job for a free node. */
  predicate NothingOffered(env: Env, s: Server)
    requires Staged(s)
  {
    forall i, m :: 0 <= i < |s.processes| && 0 <= m < |s.nodes| && Free(s.nodes, m) ==>
      !Offers(env, s.processes[i], s.nodes[m].value)
  }

  lemma {:induction false} NothingOfferedRests(env: Env, s: Server, i: nat, n: nat)
    requires NoneDone(s) && NothingOffered(env, s) && i <= |s.processes|
    ensures Pass(env, s, i, n) == Result(s, false)
    decreases |s.processes| - i, |s.nodes| - n
  {
    hide Ask;
    if i >= |s.processes| {
    } else if n >= |s.nodes| {
      NothingOfferedRests(env, s, i + 1, 0);
    } else {
      if Free(s.nodes, n) { AskDeclined(env, s, i, n); }
      NothingOfferedRests(env, s, i, n + 1);
    }
  }

  /** In a queue that has settled, as the loop leaves it, the last process has finished since:
      the loop strays exactly when enough nodes are free. */
  lemma SettledStraysIff(env: Env, s: Server, p: Process)
    requires NoneDone(s) && NothingOffered(env, s) && p.current < |p.stages| && Finished(env, p)
    ensures Staged(Queued(s, p))
    ensures CheckQueue(env, Queued(s, p)).strayed <==> CountFree(s.nodes) >= |p.stages| - p.current
  {
    var t := Queued(s, p);
    assert Shortened(t) == s;
    NothingOfferedRests(env, s, 0, 0);
    StraysIff(env, t, |s.processes|);
  }

  // ---- any number of finished processes ---------------------------------------------

  function Left(p: Process): nat
    requires p.current < |p.stages|
  {
    |p.stages| - p.current
  }

  function WaitsOne(m: StageModule): nat {
    if m.status.Wait? then 1 else 0
  }

  /** The modules that wait in the stage the loop will find the process in. */
  function Needs(env: Env, p: Process): nat
    requires p.current < |p.stages|
    decreases Left(p)
  {
    if !StageDone(Cur(p)) then Sum(Cur(p), WaitsOne)
    else if p.current == |p.stages| - 1 then 0
    else Needs(env, Rebuild(env, p.(current := p.current + 1)))
  }

  /** The process works on its stage and has no job for any free node. */
  predicate Declining(env: Env, nodes: seq<Option<Node>>, p: Process)
    requires p.current < |p.stages|
  {
    && !StageDone(Cur(p))
    && forall m :: 0 <= m < |nodes| && Free(nodes, m) ==> !Offers(env, p, nodes[m].value)
  }

  /** How many nodes a process can take in one run of the loop, at most. */
  function Demand(env: Env, nodes: seq<Option<Node>>, p: Process): nat {
    if p.current >= |p.stages| || Declining(env, nodes, p) then 0 else Needs(env, p)
  }

  function Demands(env: Env, nodes: seq<Option<Node>>): Process -> nat {
    p => Demand(env, nodes, p)
  }

  /** The nodes that stay free whatever the processes take. */
  function Spare(env: Env, s: Server): int {
    CountFree(s.nodes) - Sum(s.processes, Demands(env, s.nodes))
  }

  lemma CheckLowersDemand(env: Env, nodes: seq<Option<Node>>, p: Process)
    requires p.current < |p.stages|
    ensures match CheckStage(env, p)
            case Completes => true
            case Goes(q) =>
              && Demand(env, nodes, q) <= Demand(env, nodes, p)
              && (StageDone(Cur(p)) ==> Needs(env, q) == Needs(env, p))
  {
  }

  /** What a process takes it needs no more. */
  lemma StartLowersNeeds(env: Env, p: Process, j: nat, n: nat)
    requires p.current < |p.stages| && j < |Cur(p)| && Cur(p)[j].status.Wait?
    ensures var q := WithCur(p, StartModule(Cur(p), j, n));
            q.current < |q.stages| && Needs(env, p) == Needs(env, q) + 1
  {
    var q := WithCur(p, StartModule(Cur(p), j, n));
    assert !Over(Cur(p)[j]) && !Over(Cur(q)[j]);
    SumUpdate(Cur(p), j, Cur(q)[j], WaitsOne);
  }

  /** With fewer nodes free no process wants more. */
  lemma FewerNodesLowerDemand(env: Env, nodes: seq<Option<Node>>, n: nat, node: Node, p: Process)
    requires n < |nodes| && node.busy
    ensures Demand(env, nodes[n := Some(node)], p) <= Demand(env, nodes, p)
  {
    var fewer := nodes[n := Some(node)];
    if p.current < |p.stages| && Declining(env, nodes, p) {
      forall m | 0 <= m < |fewer| && Free(fewer, m) ensures !Offers(env, p, fewer[m].value) {
        assert fewer[m] == nodes[m] && Free(nodes, m);
      }
    }
  }

  /** The state after process `i` was replaced. */
  lemma SetKeepsSpare(env: Env, s: Server, i: nat, q: Process)
    requires i < |s.processes| && Demand(env, s.nodes, q) <= Demand(env, s.nodes, s.processes[i])
    ensures Spare(env, SetProcess(s, i, q)) >= Spare(env, s)
  {
    SumUpdate(s.processes, i, q, Demands(env, s.nodes));
  }

  /** Process `i` takes node `n` for module `j`. */
  lemma TakingKeepsSpare(env: Env, s: Server, i: nat, j: nat, n: nat)
    requires Staged(s) && i < |s.processes| && Free(s.nodes, n) && j < |Cur(s.processes[i])|
    requires Cur(s.processes[i])[j].status.Wait? && Offers(env, s.processes[i], s.nodes[n].value)
    ensures Spare(env, Taken(s, i, j, n)) >= Spare(env, s)
  {
    hide Offers, Needs, Demand;
    var p, t := s.processes[i], Taken(s, i, j, n);
    var q, demand, less := t.processes[i], Demands(env, s.nodes), Demands(env, t.nodes);
    TakerWants(env, s.nodes, p, j, n);
    assert demand(q) + 1 <= demand(p);
    SumUpdate(s.processes, i, q, demand);
    forall k | 0 <= k < |t.processes| ensures less(t.processes[k]) <= demand(t.processes[k]) {
      FewerNodesLowerDemand(env, s.nodes, n, t.nodes[n].value, t.processes[k]);
    }
    SumBelow(t.processes, less, demand);
    SumUpdate(s.nodes, n, t.nodes[n], FreeOne);
  }

  lemma TakerWants(env: Env, nodes: seq<Option<Node>>, p: Process, j: nat, n: nat)
    requires p.current < |p.stages| && Free(nodes, n) && Offers(env, p, nodes[n].value)
    requires j < |Cur(p)| && Cur(p)[j].status.Wait?
    ensures Demand(env, nodes, WithCur(p, StartModule(Cur(p), j, n))) + 1 <= Demand(env, nodes, p)
  {
    StartLowersNeeds(env, p, j, n);
    assert !Declining(env, nodes, p);
  }

  /** No question takes away from the nodes to spare. */
  lemma AskKeepsSpare(env: Env, s: Server, i: nat, n: nat)
    requires Staged(s) && i < |s.processes| && Free(s.nodes, n)
    ensures Spare(env, Ask(env, s, i, n)) >= Spare(env, s)
  {
    hide Needs, Demand, Spare, Offers;
    var p, node := s.processes[i], s.nodes[n].value;
    CheckLowersDemand(env, s.nodes, p);
    match CheckStage(env, p)
    case Completes => RetireKeepsSpare(env, s, i, p);
    case Goes(q) =>
      var t := SetProcess(s, i, q);
      SetKeepsSpare(env, s, i, q);
      if Offers(env, q, node) {
        var j := FirstEligible(Cur(q), node);
        OffersWaiting(env, q, node);
        TakingKeepsSpare(env, t, i, j, n);
        assert Ask(env, s, i, n) == Taken(t, i, j, n) by { AskTakes(env, s, i, n, q); }
      }
  }

  lemma OffersWaiting(env: Env, p: Process, node: Node)
    requires p.current < |p.stages| && Offers(env, p, node)
    ensures var j := FirstEligible(Cur(p), node); j < |Cur(p)| && Cur(p)[j].status.Wait?
  {
  }

  lemma AskTakes(env: Env, s: Server, i: nat, n: nat, q: Process)
    requires Staged(s) && i < |s.processes| && Free(s.nodes, n) && q.current < |q.stages|
    requires CheckStage(env, s.processes[i]) == Goes(q) && Offers(env, q, s.nodes[n].value)
    ensures var j := FirstEligible(Cur(q), s.nodes[n].value);
            j < |Cur(q)| && Ask(env, s, i, n) == Taken(SetProcess(s, i, q), i, j, n)
  {
    var j := FirstEligible(Cur(q), s.nodes[n].value);
    var q' := WithCur(q, StartModule(Cur(q), j, n));
    assert SetProcess(SetProcess(s, i, q), i, q') == SetProcess(s, i, q');
  }

  lemma RetireKeepsSpare(env: Env, s: Server, i: nat, p: Process)
    requires i < |s.processes|
    ensures Spare(env, Retire(s, i, p)) >= Spare(env, s)
  {
    SumRemove(s.processes, i, Demands(env, s.nodes));
  }

  /** The finished processes from `i` on have no more stages left than there is room. */
  predicate Short(env: Env, s: Server, i: int, room: int)
    requires Staged(s)
  {
    forall k :: i <= k && 0 <= k < |s.processes| && Finished(env, s.processes[k]) ==> Left(s.processes[k]) <= room
  }

  predicate NoneFinishedBefore(env: Env, s: Server, i: int)
    requires Staged(s)
  {
    forall k :: 0 <= k < i && k < |s.processes| ==> !Finished(env, s.processes[k])
  }

  predicate LastFinished(env: Env, s: Server)
    requires Staged(s) && s.processes != []
  {
    Finished(env, s.processes[|s.processes| - 1])
  }

  /** A question before the last process leaves the last process and the room, and finishes none. */
  lemma AskBeforeLast(env: Env, s: Server, i: nat, n: nat, room: int)
    requires Staged(s) && i < |s.processes| - 1 && Free(s.nodes, n) && room <= Spare(env, s)
    ensures var t := Ask(env, s, i, n);
            && t.processes != [] && room <= Spare(env, t) && |s.processes| - 1 <= |t.processes| <= |s.processes|
            && t.processes[|t.processes| - 1] == s.processes[|s.processes| - 1]
            && (NoneFinishedBefore(env, s, i) ==> NoneFinishedBefore(env, t, i))
            && (Short(env, s, i + 1, room) ==> Short(env, t, if |t.processes| == |s.processes| then i + 1 else i, room))
  {
    hide Ask, Finished, Spare;
    AskKeepsSpare(env, s, i, n);
    if Finished(env, s.processes[i]) { AskFinished(env, s, i, n); } else { AskUnfinished(env, s, i, n); }
  }

  lemma SpareIsFree(env: Env, s: Server)
    ensures Spare(env, s) <= CountFree(s.nodes) && s.nodes[0..] == s.nodes
  {
  }

  lemma FreeFrom(nodes: seq<Option<Node>>, n: nat)
    requires n <= |nodes|
    ensures CountFree(nodes[n..]) == if n == |nodes| then 0 else FreeOne(nodes[n]) + CountFree(nodes[n + 1..])
  {
    if n < |nodes| { assert nodes[n..][1..] == nodes[n + 1..]; }
  }

  /** The last process is not finished, and everything finished completes in one run: no index
      is gone when the loop comes back to it.  More than `b` processes stay. */
  lemma {:induction false} LastUnfinishedStays(env: Env, s: Server, i: nat, n: nat, b: nat, room: int)
    requires Staged(s) && i <= |s.processes| && n <= |s.nodes| && b < |s.processes| && room <= Spare(env, s)
    requires !LastFinished(env, s) && NoneFinishedBefore(env, s, i) && NoneFinishedBefore(env, s, b)
    requires Short(env, s, i + 1, room)
    requires i < |s.processes| && Finished(env, s.processes[i]) ==> Left(s.processes[i]) <= CountFree(s.nodes[n..])
    ensures var r := Pass(env, s, i, n); !r.strayed && NoneFinished(env, r.s) && |r.s.processes| > b
    decreases |s.processes|, |s.processes| - i, |s.nodes| - n
  {
    hide Ask, Finished, Spare, CountFree;
    SpareIsFree(env, s);
    FreeFrom(s.nodes, n);
    if i >= |s.processes| {
    } else if n >= |s.nodes| {
      LastUnfinishedStays(env, s, i + 1, 0, b, room);
    } else if !Free(s.nodes, n) {
      LastUnfinishedStays(env, s, i, n + 1, b, room);
    } else {
      var p, t := s.processes[i], Ask(env, s, i, n);
      if !Finished(env, p) {
        AskUnfinished(env, s, i, n);
        AskKeepsSpare(env, s, i, n);
        LastUnfinishedStays(env, t, i, n + 1, b, room);
      } else {
        AskFinished(env, s, i, n);
        AskBeforeLast(env, s, i, n, room);
        if p.current < |p.stages| - 1 {
          LastUnfinishedStays(env, t, i, n + 1, b, room);
        } else {
          SpareIsFree(env, t);
          LastUnfinishedStays(env, t, 0, 0, i, room);
          NoneFinishedStays(env, Pass(env, t, 0, 0).s, i, n + 1);
        }
      }
    }
  }

  /** The last process is finished and has room: the loop strays, at the latest in the check
      that follows the first completion. */
  lemma {:induction false} LastFinishedStrays(env: Env, s: Server, i: nat, n: nat, room: int)
    requires Staged(s) && i < |s.processes| && n <= |s.nodes| && room <= Spare(env, s)
    requires LastFinished(env, s) && Left(s.processes[|s.processes| - 1]) <= room
    requires i == |s.processes| - 1 ==> Left(s.processes[i]) <= CountFree(s.nodes[n..])
    ensures Pass(env, s, i, n).strayed
    decreases |s.processes|, |s.processes| - i, |s.nodes| - n
  {
    hide Ask, Finished, Spare, CountFree;
    var last := |s.processes| - 1;
    SpareIsFree(env, s);
    if i == last {
      assert s == Queued(Shortened(s), s.processes[last]);
      LastCompletes(env, Shortened(s), s.processes[last], n);
    } else if n >= |s.nodes| {
      LastFinishedStrays(env, s, i + 1, 0, room);
    } else if !Free(s.nodes, n) {
      LastFinishedStrays(env, s, i, n + 1, room);
    } else {
      AskBeforeLast(env, s, i, n, room);
      var t := Ask(env, s, i, n);
      if |t.processes| == |s.processes| {
        LastFinishedStrays(env, t, i, n + 1, room);
      } else {
        SpareIsFree(env, t);
        LastFinishedStrays(env, t, 0, 0, room);
      }
    }
  }

  /** Any queue, with any number of finished processes in it, each with no more stages left
      than there are nodes to spare: the loop runs past the end of the vector exactly when the
      last process is one of them. */
  lemma StraysIffLastFinished(env: Env, s: Server)
    requires Staged(s) && s.processes != [] && Short(env, s, 0, Spare(env, s))
    ensures CheckQueue(env, s).strayed <==> LastFinished(env, s)
  {
    hide Finished, Spare, CountFree;
    SpareIsFree(env, s);
    if LastFinished(env, s) {
      LastFinishedStrays(env, s, 0, 0, Spare(env, s));
    } else {
      LastUnfinishedStays(env, s, 0, 0, 0, Spare(env, s));
    }
  }

  /** Every process is finished, or works on its stage and has no job for a free node. */
  predicate AtRest(env: Env, s: Server) {
    && Staged(s)
    && forall i :: 0 <= i < |s.processes| ==>
         Finished(env, s.processes[i]) || Declining(env, s.nodes, s.processes[i])
  }

  lemma {:induction false} FinishedNeedsNothing(env: Env, p: Process)
    requires p.current < |p.stages| && Finished(env, p)
    ensures Needs(env, p) == 0
    decreases Left(p)
  {
    if p.current < |p.stages| - 1 {
      CheckKeepsFinished(env, p);
      FinishedNeedsNothing(env, CheckStage(env, p).p);
    }
  }

  /** A settled queue takes no node: all free ones are to spare. */
  lemma SpareAtRest(env: Env, s: Server)
    requires AtRest(env, s)
    ensures Spare(env, s) == CountFree(s.nodes)
  {
    forall k | 0 <= k < |s.processes| ensures Demand(env, s.nodes, s.processes[k]) == 0 {
      if Finished(env, s.processes[k]) { FinishedNeedsNothing(env, s.processes[k]); }
    }
    SumOfNothing(s.processes, Demands(env, s.nodes));
  }

  /** A settled queue, as the loop leaves it, in which any processes have finished since. */
  lemma SettledQueueStraysIff(env: Env, s: Server)
    requires AtRest(env, s) && s.processes != [] && Short(env, s, 0, CountFree(s.nodes))
    ensures CheckQueue(env, s).strayed <==> LastFinished(env, s)
  {
    hide Finished, Spare, CountFree;
    SpareAtRest(env, s);
    StraysIffLastFinished(env, s);
  }

  /** With enough nodes free for the last process it does not matter how many stages the other
      finished ones have left. */
  lemma SettledQueueStrays(env: Env, s: Server)
    requires AtRest(env, s) && s.processes != [] && LastFinished(env, s)
    requires Left(s.processes[|s.processes| - 1]) <= CountFree(s.nodes)
    ensures CheckQueue(env, s).strayed
  {
    hide Finished, Spare, CountFree;
    SpareAtRest(env, s);
    SpareIsFree(env, s);
    LastFinishedStrays(env, s, 0, 0, CountFree(s.nodes));
  }

  // ---- settled queues with any number of stages left --------------------------------

  datatype Rest = Rest(lefts: seq<nat>, strayed: bool)

  /** The loop on numbers: the stages every finished process has left, 0 for one that is not
      finished, and how many of the free nodes are still to come for process `i`. */
  function Countdown(lefts: seq<nat>, free: nat, i: nat, more: nat): (r: Rest)
    ensures |r.lefts| <= |lefts|
    decreases |lefts|, |lefts| - i, more
  {
    if i >= |lefts| then Rest(lefts, false)
    else if more == 0 then Countdown(lefts, free, i + 1, free)
    else if lefts[i] != 1 then
      Countdown(if lefts[i] == 0 then lefts else lefts[i := lefts[i] - 1], free, i, more - 1)
    else
      var r := Countdown(RemoveAt(lefts, i), free, 0, free);
      if r.strayed || i >= |r.lefts| then Rest(r.lefts, true) else Countdown(r.lefts, free, i, more - 1)
  }

  function LeftOrNone(env: Env, p: Process): nat
    requires p.current < |p.stages|
  {
    if Finished(env, p) then Left(p) else 0
  }

  function Lefts(env: Env, s: Server): (lefts: seq<nat>)
    requires Staged(s)
    ensures |lefts| == |s.processes|
    ensures forall k :: 0 <= k < |lefts| ==> lefts[k] == LeftOrNone(env, s.processes[k])
  {
    seq(|s.processes|, k requires 0 <= k < |s.processes| => LeftOrNone(env, s.processes[k]))
  }

  /** A question in a settled queue. */
  lemma AskCountsDown(env: Env, s: Server, i: nat, n: nat)
    requires AtRest(env, s) && i < |s.processes| && Free(s.nodes, n)
    ensures var t, lefts := Ask(env, s, i, n), Lefts(env, s);
            && AtRest(env, t) && t.nodes == s.nodes
            && Lefts(env, t) == if lefts[i] == 0 then lefts
                                else if lefts[i] == 1 then RemoveAt(lefts, i) else lefts[i := lefts[i] - 1]
  {
    hide Ask, Finished, Offers;
    var t, p := Ask(env, s, i, n), s.processes[i];
    if !Finished(env, p) {
      AskDeclined(env, s, i, n);
    } else {
      AskFinished(env, s, i, n);
      if p.current == |p.stages| - 1 {
        assert Lefts(env, t) == RemoveAt(Lefts(env, s), i);
      } else {
        assert Lefts(env, t) == Lefts(env, s)[i := Left(p) - 1];
      }
    }
  }

  /** What the loop has made of a settled queue, and what the loop on numbers has. */
  predicate Agrees(env: Env, s: Server, r: Result, c: Rest) {
    && r.strayed == c.strayed && |r.s.processes| == |c.lefts|
    && (!r.strayed ==> AtRest(env, r.s) && r.s.nodes == s.nodes && Lefts(env, r.s) == c.lefts)
  }

  lemma {:induction false} PassCountsDown(env: Env, s: Server, i: nat, n: nat)
    requires AtRest(env, s) && n <= |s.nodes|
    ensures Agrees(env, s, Pass(env, s, i, n),
                   Countdown(Lefts(env, s), CountFree(s.nodes), i, CountFree(s.nodes[n..])))
    decreases |s.processes|, |s.processes| - i, |s.nodes| - n
  {
    hide Ask, AtRest, LeftOrNone, CountFree, Spare;
    SpareIsFree(env, s);
    FreeFrom(s.nodes, n);
    RestIsStaged(env, s);
    if i >= |s.processes| {
    } else if n >= |s.nodes| {
      PassCountsDown(env, s, i + 1, 0);
    } else if !Free(s.nodes, n) {
      PassCountsDown(env, s, i, n + 1);
    } else {
      var t := Ask(env, s, i, n);
      AskCountsDown(env, s, i, n);
      if |t.processes| == |s.processes| {
        PassCountsDown(env, t, i, n + 1);
      } else {
        CompletionCountsDown(env, s, t, i, n);
      }
    }
  }

  /** The nested check, and the rest of the loop after it. */
  lemma {:induction false} CompletionCountsDown(env: Env, s: Server, t: Server, i: nat, n: nat)
    requires AtRest(env, s) && i < |s.processes| && Free(s.nodes, n) && t == Ask(env, s, i, n)
    requires AtRest(env, t) && t.nodes == s.nodes && |t.processes| < |s.processes|
    requires Lefts(env, s)[i] == 1 && Lefts(env, t) == RemoveAt(Lefts(env, s), i)
    ensures Agrees(env, s, Pass(env, s, i, n),
                   Countdown(Lefts(env, s), CountFree(s.nodes), i, CountFree(s.nodes[n..])))
    decreases |s.processes|, |s.processes| - i, |s.nodes| - n, 0
  {
    hide Ask, AtRest, LeftOrNone, CountFree, Spare;
    SpareIsFree(env, t);
    FreeFrom(s.nodes, n);
    RestIsStaged(env, s);
    PassCountsDown(env, t, 0, 0);
    var r := Pass(env, t, 0, 0);
    if !r.strayed && i < |r.s.processes| { PassCountsDown(env, r.s, i, n + 1); }
  }

  lemma RestIsStaged(env: Env, s: Server)
    requires AtRest(env, s)
    ensures Staged(s)
  {
  }

  /** In any settled queue, whatever its processes have left: the loop does what the numbers
      do, so nothing but the stages left and the number of free nodes matters. */
  lemma SettledQueueCountsDown(env: Env, s: Server)
    requires AtRest(env, s)
    ensures CheckQueue(env, s).strayed <==>
            Countdown(Lefts(env, s), CountFree(s.nodes), 0, CountFree(s.nodes)).strayed
  {
    hide Finished, CountFree;
    PassCountsDown(env, s, 0, 0);
    assert s.nodes[0..] == s.nodes;
  }

  // ---- single cases -----------------------------------------------------------------

  const OVER := StageModule("p.m", Stoped, -1, false, -1)
  const LONG := Process(0, [[OVER], [OVER]], 0, 0)
  const BRIEF := Process(1, [[OVER]], 0, 0)
  const ALIVE := Process(2, [[StageModule("p.m", Wait, -1, false, -1)]], 0, 0)

  lemma CasesAreFinished(env: Env)
    ensures Finished(env, LONG) && Finished(env, LONG.(current := 1)) && Finished(env, BRIEF) && !Finished(env, ALIVE)
  {
    assert RebuildFrom(env, 0, [OVER], 0) == [OVER];
    assert !Over(Cur(ALIVE)[0]);
  }

  lemma LongMovesOn(env: Env, node: Node)
    ensures GiveJob(env, LONG, 0, node) == Refuses(LONG.(current := 1))
  {
    assert RebuildFrom(env, 0, [OVER], 0) == [OVER];
    var q := Rebuild(env, LONG.(current := 1));
    assert q.stages == LONG.stages;
    assert CheckStage(env, LONG) == Goes(q);
    assert !Eligible(Cur(q)[0], node);
  }

  lemma AliveStays(env: Env, node: Node)
    requires node.modules == []
    ensures !StageDone(Cur(ALIVE)) && !Offers(env, ALIVE, node) && GiveJob(env, ALIVE, 0, node) == Refuses(ALIVE)
  {
    assert !Over(Cur(ALIVE)[0]) && !Eligible(Cur(ALIVE)[0], node);
  }

  /** One free node and these processes; `gone` have completed. */
  function OneFree(queue: seq<Process>, gone: seq<Process>): Server {
    Server(queue, [Some(Node(false, false, -1, "", []))], 3, gone)
  }

  const MOVED := LONG.(current := 1)

  lemma LongAndBriefAsked(env: Env)
    ensures Ask(env, OneFree([LONG, BRIEF, ALIVE], []), 0, 0) == OneFree([MOVED, BRIEF, ALIVE], [])
    ensures Ask(env, OneFree([MOVED, BRIEF, ALIVE], []), 1, 0) == OneFree([MOVED, ALIVE], [BRIEF])
  {
    LongMovesOn(env, Node(false, false, -1, "", []));
    assert RemoveAt([MOVED, BRIEF, ALIVE], 1) == [MOVED, ALIVE];
    assert [LONG, BRIEF, ALIVE][0 := MOVED] == [MOVED, BRIEF, ALIVE];
  }

  lemma MovedAndAliveAsked(env: Env)
    ensures Ask(env, OneFree([MOVED, ALIVE], [BRIEF]), 0, 0) == OneFree([ALIVE], [BRIEF, MOVED])
    ensures Ask(env, OneFree([ALIVE], [BRIEF, MOVED]), 0, 0) == OneFree([ALIVE], [BRIEF, MOVED])
  {
    AliveStays(env, Node(false, false, -1, "", []));
    assert RemoveAt([MOVED, ALIVE], 0) == [ALIVE] && [BRIEF] + [MOVED] == [BRIEF, MOVED];
    assert [ALIVE][0 := ALIVE] == [ALIVE];
  }

  /** The check that follows the completion of BRIEF. */
  lemma NestedCheck(env: Env)
    ensures Pass(env, OneFree([MOVED, ALIVE], [BRIEF]), 0, 0) == Result(OneFree([ALIVE], [BRIEF, MOVED]), false)
  {
    hide Ask;
    MovedAndAliveAsked(env);
    var t := OneFree([ALIVE], [BRIEF, MOVED]);
    assert Pass(env, t, 0, 1) == Pass(env, t, 1, 0) == Result(t, false);
    assert Pass(env, t, 0, 0) == Result(t, false);
  }

  /** With more stages left than nodes are free a process can outlive its first questions and
      complete in the check after a later one has: the loop strays although its last process
      is not finished. */
  lemma LongProcessStrays(env: Env)
    ensures var s := OneFree([LONG, BRIEF, ALIVE], []);
            AtRest(env, s) && CheckQueue(env, s).strayed && !LastFinished(env, s)
  {
    hide Ask;
    var s, t := OneFree([LONG, BRIEF, ALIVE], []), OneFree([MOVED, BRIEF, ALIVE], []);
    CasesAreFinished(env);
    AliveStays(env, s.nodes[0].value);
    LongAndBriefAsked(env);
    NestedCheck(env);
    assert Pass(env, t, 1, 0).strayed;
    assert Pass(env, s, 0, 0) == Pass(env, t, 0, 1) == Pass(env, t, 1, 0);
  }

  /** The smallest case: the only process was stopped before its module ran. */
  lemma StopBeforeStartStrays(env: Env)
    ensures var p := Process(0, [[StageModule("p.m", Wait, -1, false, -1)]], 0, 0);
            var s := Server([p], [Some(Node(false, false, -1, "", []))], 1, []);
            CheckQueue(env, StopRequestedSlot(s, 0, ByName("p.m")).s).strayed
  {
    var p := Process(0, [[StageModule("p.m", Wait, -1, false, -1)]], 0, 0);
    var s := Server([p], [Some(Node(false, false, -1, "", []))], 1, []);
    var q := StopModules(p, ByName("p.m"));
    assert Cur(q) == [StageModule("p.m", Stoped, -1, false, -1)];
    assert StopSignals(Cur(p), ByName("p.m")) == [] by {
      assert Cur(p)[..0] == [];
    }
    var t := StopRequestedSlot(s, 0, ByName("p.m")).s;
    assert t.processes == [q] && t.nodes == s.nodes;
    assert GiveJob(env, q, 0, t.nodes[0].value) == Ends;
    assert Pass(env, Retire(t, 0, q), 0, 0).s.processes == [];
  }
}
