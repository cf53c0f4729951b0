/** What the queue loop gives out, and what it leaves, said of the fields of modules and nodes. */
module Jobs {
  import opened Wrappers
  import opened Entities
  import opened ProcessSteps
  import opened ServerSteps
  import opened Guarantees
  import opened QueuePass

  // ---- one process and one node -----------------------------------------------------

  /** Module `j` of the current stage waits, and entry `k` of the node is that module and not
      marked failed. */
  predicate CanTake(p: Process, j: int, node: Node, k: int) {
    && p.current < |p.stages| && 0 <= j < |p.stages[p.current]| && 0 <= k < |node.modules|
    && p.stages[p.current][j].status == Wait
    && node.modules[k].name == p.stages[p.current][j].name && !node.modules[k].failed
  }

  /** The first module the node can take, and its inputs are there. */
  ghost predicate TakesFirst(env: Env, p: Process, j: int, node: Node) {
    && (exists k :: CanTake(p, j, node, k))
    && (p.id, p.stages[p.current][j].name) in env.ready
    && (forall i, k :: 0 <= i < j ==> !CanTake(p, i, node, k))
  }

  lemma EligibleMeans(p: Process, j: nat, node: Node)
    requires p.current < |p.stages| && j < |Cur(p)|
    ensures Eligible(Cur(p)[j], node) <==> exists k :: CanTake(p, j, node, k)
  {
    if Eligible(Cur(p)[j], node) {
      var k :| 0 <= k < |node.modules| && node.modules[k].name == Cur(p)[j].name && !node.modules[k].failed;
      assert CanTake(p, j, node, k);
    }
  }

  lemma OffersMeans(env: Env, p: Process, node: Node)
    requires p.current < |p.stages|
    ensures var j := FirstEligible(Cur(p), node);
            if Offers(env, p, node) then TakesFirst(env, p, j, node) else forall i :: !TakesFirst(env, p, i, node)
  {
    var j := FirstEligible(Cur(p), node);
    if j < |Cur(p)| { EligibleMeans(p, j, node); }
    forall i, k | 0 <= i < j ensures !CanTake(p, i, node, k) { EligibleMeans(p, i, node); }
    forall i | TakesFirst(env, p, i, node) ensures i == j { EligibleMeans(p, i, node); }
  }

  /** giveJobToNode, after the stage check: the first waiting module that the node has and has
      not failed is given out if its inputs are there, under its name, and nothing else
      changes; otherwise nothing does.  Whether it is a list module plays no part. */
  lemma JobIsTheFirst(env: Env, p: Process, n: nat, node: Node)
    requires p.current < |p.stages|
    ensures match (CheckStage(env, p), GiveJob(env, p, n, node))
            case (Completes, Ends) => true
            case (Goes(q), Gives(r, name)) =>
              exists j :: && TakesFirst(env, q, j, node) && name == q.stages[q.current][j].name
                          && r == q.(stages := q.stages[q.current :=
                                     q.stages[q.current][j := q.stages[q.current][j].(status := Started, node := n)]])
            case (Goes(q), Refuses(r)) => r == q && forall j :: !TakesFirst(env, q, j, node)
            case _ => false
  {
    match CheckStage(env, p)
    case Goes(q) => OffersMeans(env, q, node);
    case Completes =>
  }

  // ---- the loop ---------------------------------------------------------------------

  /** Module `j` of process `i` has gone to node `m`, which was free and has the module, and
      modules before it that still wait the node cannot take. */
  ghost predicate Given(env: Env, s: Server, r: Server, i: int, j: int, m: int) {
    && ModuleAt(s, i, j) && ModuleAt(r, i, j) && Free(s.nodes, m) && m < |r.nodes|
    && var p, x, node := s.processes[i], TheModule(s, i, j), s.nodes[m].value;
    && (exists k :: CanTake(p, j, node, k)) && (p.id, x.name) in env.ready
    && TheModule(r, i, j) == x.(status := Started, node := m)
    && r.nodes[m] == Some(node.(busy := true, processId := p.id, running := x.name))
    && forall l, k :: 0 <= l < j ==> !CanTake(r.processes[i], l, node, k)
  }

  predicate SameButStage(p: Process, q: Process) {
    && q.id == p.id && q.current == p.current < |p.stages| == |q.stages| && q.start == p.start
    && |q.stages[q.current]| == |p.stages[p.current]|
    && forall k :: 0 <= k < |p.stages| && k != p.current ==> q.stages[k] == p.stages[k]
  }

  /** Every module and every node is as it was, or given out. */
  ghost predicate HandsOut(env: Env, s: Server, r: Server) {
    && |r.processes| == |s.processes| && |r.nodes| == |s.nodes|
    && r.counter == s.counter && r.finished == s.finished
    && (forall i :: 0 <= i < |s.processes| ==> SameButStage(s.processes[i], r.processes[i]))
    && (forall i, j :: ModuleAt(s, i, j) ==>
          TheModule(r, i, j) == TheModule(s, i, j) || exists m :: Given(env, s, r, i, j, m))
    && (forall m :: 0 <= m < |s.nodes| ==> r.nodes[m] == s.nodes[m] || exists i, j :: Given(env, s, r, i, j, m))
  }

  lemma WaitingWas(env: Env, s: Server, r: Server, i: int, j: int)
    requires HandsOut(env, s, r) && ModuleAt(s, i, j)
    ensures ModuleAt(r, i, j)
    ensures TheModule(r, i, j).status.Wait? || !TheModule(s, i, j).status.Wait? ==>
              TheModule(r, i, j) == TheModule(s, i, j)
  {
    assert SameButStage(s.processes[i], r.processes[i]);
  }

  lemma FreeWas(env: Env, s: Server, r: Server, m: int)
    requires HandsOut(env, s, r) && 0 <= m < |s.nodes|
    ensures Free(r.nodes, m) || !Free(s.nodes, m) ==> r.nodes[m] == s.nodes[m]
  {
  }

  lemma GivenStays(env: Env, s: Server, t: Server, u: Server, i: int, j: int, m: int)
    requires Given(env, s, t, i, j, m) && HandsOut(env, t, u)
    ensures Given(env, s, u, i, j, m)
  {
    WaitingWas(env, t, u, i, j);
    FreeWas(env, t, u, m);
    forall l, k | 0 <= l < j ensures !CanTake(u.processes[i], l, s.nodes[m].value, k) {
      WaitingWas(env, t, u, i, l);
      assert !CanTake(t.processes[i], l, s.nodes[m].value, k);
    }
  }

  lemma GivenLater(env: Env, s: Server, t: Server, u: Server, i: int, j: int, m: int)
    requires HandsOut(env, s, t) && Given(env, t, u, i, j, m)
    ensures Given(env, s, u, i, j, m)
  {
    assert 0 <= i < |s.processes| && SameButStage(s.processes[i], t.processes[i]);
    WaitingWas(env, s, t, i, j);
    FreeWas(env, s, t, m);
    var k :| CanTake(t.processes[i], j, t.nodes[m].value, k);
    assert CanTake(s.processes[i], j, s.nodes[m].value, k);
  }

  lemma HandsOutTwice(env: Env, s: Server, t: Server, u: Server)
    requires HandsOut(env, s, t) && HandsOut(env, t, u)
    ensures HandsOut(env, s, u)
  {
    hide Given;
    forall i | 0 <= i < |s.processes| ensures SameButStage(s.processes[i], u.processes[i]) {
      assert SameButStage(s.processes[i], t.processes[i]) && SameButStage(t.processes[i], u.processes[i]);
    }
    forall i, j | ModuleAt(s, i, j)
      ensures TheModule(u, i, j) == TheModule(s, i, j) || exists m :: Given(env, s, u, i, j, m)
    {
      assert SameButStage(s.processes[i], t.processes[i]) && ModuleAt(t, i, j);
      if TheModule(t, i, j) != TheModule(s, i, j) {
        var m :| Given(env, s, t, i, j, m);
        GivenStays(env, s, t, u, i, j, m);
      } else if TheModule(u, i, j) != TheModule(t, i, j) {
        var m :| Given(env, t, u, i, j, m);
        GivenLater(env, s, t, u, i, j, m);
      }
    }
    forall m | 0 <= m < |s.nodes| ensures u.nodes[m] == s.nodes[m] || exists i, j :: Given(env, s, u, i, j, m) {
      if t.nodes[m] != s.nodes[m] {
        var i, j :| Given(env, s, t, i, j, m);
        GivenStays(env, s, t, u, i, j, m);
      } else if u.nodes[m] != t.nodes[m] {
        var i, j :| Given(env, t, u, i, j, m);
        GivenLater(env, s, t, u, i, j, m);
      }
    }
  }

  lemma NothingHandsOut(env: Env, s: Server)
    requires Staged(s)
    ensures HandsOut(env, s, s)
  {
  }

  lemma AskHandsOut(env: Env, s: Server, i: nat, n: nat)
    requires NoneDone(s) && i < |s.processes| && Free(s.nodes, n)
    ensures NoneDone(Ask(env, s, i, n)) && HandsOut(env, s, Ask(env, s, i, n))
  {
    var p, node := s.processes[i], s.nodes[n].value;
    OffersMeans(env, p, node);
    if !Offers(env, p, node) {
      AskDeclined(env, s, i, n);
    } else {
      var j := FirstEligible(Cur(p), node);
      AskTaken(env, s, i, n);
      TakenStays(s, i, j, n);
      TakenHandsOut(env, s, i, j, n);
    }
  }

  lemma TakenHandsOut(env: Env, s: Server, i: nat, j: nat, n: nat)
    requires Staged(s) && i < |s.processes| && Free(s.nodes, n) && j < |Cur(s.processes[i])|
    requires TakesFirst(env, s.processes[i], j, s.nodes[n].value)
    ensures HandsOut(env, s, Taken(s, i, j, n))
  {
    var p, t, node := s.processes[i], Taken(s, i, j, n), s.nodes[n].value;
    forall l, k | 0 <= l < j ensures !CanTake(t.processes[i], l, node, k) {
      assert Cur(t.processes[i])[l] == Cur(p)[l] && !CanTake(p, l, node, k);
    }
    assert Given(env, s, t, i, j, n);
  }

  /** With no stage over at entry: whatever the loop changes it has given out.  Every module is
      as it was, or it waited and now runs on a node that was free, has it unfailed and had no
      waiting module before it to take, with its inputs there; and every node is as it was, or
      it runs such a module under its name and its process's number. */
  lemma QueueHandsOut(env: Env, s: Server)
    requires NoneDone(s)
    ensures HandsOut(env, s, CheckQueue(env, s).s)
  {
    ghost var R := (t: Server, u: Server) => t == u || (NoneDone(t) ==> NoneDone(u) && HandsOut(env, t, u));
    forall t, u, v | R(t, u) && R(u, v) ensures R(t, v) {
      if NoneDone(t) && t != u && u != v { HandsOutTwice(env, t, u, v); }
    }
    forall t, k: nat, m: nat ensures AskRelates(env, R, t, k, m) {
      if NoneDone(t) && k < |t.processes| && Free(t.nodes, m) { AskHandsOut(env, t, k, m); }
    }
    PassRelates(env, R, s, 0, 0);
    NothingHandsOut(env, s);
  }

  /** Module `j` waits, the node can take it and its inputs are there. */
  ghost predicate Waits(env: Env, p: Process, j: int, node: Node) {
    (exists k :: CanTake(p, j, node, k)) && (p.id, p.stages[p.current][j].name) in env.ready
  }

  /** Module `l` waits and the node can take it, but its inputs are not there. */
  ghost predicate Blocks(env: Env, p: Process, l: int, node: Node) {
    (exists k :: CanTake(p, l, node, k)) && (p.id, p.stages[p.current][l].name) !in env.ready
  }

  lemma RefusedMeans(env: Env, p: Process, j: int, node: Node)
    requires Waits(env, p, j, node) && !Offers(env, p, node)
    ensures exists l :: 0 <= l < j && Blocks(env, p, l, node)
  {
    EligibleMeans(p, j, node);
    var l := FirstEligible(Cur(p), node);
    EligibleMeans(p, l, node);
    assert Blocks(env, p, l, node);
  }

  ghost predicate NoneLeft(env: Env, p: Process, node: Node) {
    forall j :: Waits(env, p, j, node) ==> exists l :: 0 <= l < j && Blocks(env, p, l, node)
  }

  /** And no free node is left with a module it could take: if one waits that the node has
      unfailed and whose inputs are there, an earlier one waits for inputs that are not. */
  lemma NoJobIsLeft(env: Env, s: Server)
    requires NoneDone(s)
    ensures var r := CheckQueue(env, s).s;
            forall m, i :: 0 <= i < |r.processes| && Free(r.nodes, m) ==>
              NoneLeft(env, r.processes[i], r.nodes[m].value)
  {
    QueueIsGreedyAndOrdered(env, s);
    var r := CheckQueue(env, s).s;
    forall m, i, j | 0 <= i < |r.processes| && Free(r.nodes, m) && Waits(env, r.processes[i], j, r.nodes[m].value)
      ensures exists l :: 0 <= l < j && Blocks(env, r.processes[i], l, r.nodes[m].value)
    {
      RefusedMeans(env, r.processes[i], j, r.nodes[m].value);
    }
  }
}
