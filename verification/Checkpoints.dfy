/** Control points: what is saved of a running process and what a resume makes of it. */
module Checkpoints {
  import opened Wrappers
  import opened Entities
  import opened ProcessSteps
  import opened Lists
  import opened Scheduler

  /** One <module> of a control point file; list_num is written for list modules only. */
  datatype Record = Record(name: string, status: Status, listNum: Option<int>)

  datatype Checkpoint = Checkpoint(stage: nat, records: seq<Record>)

  // ---- saving and restoring -----------------------------------------------------------

  /** Status 2, "stoped", is the only one kept; everything else, "done" as well, becomes 0. */
  function Saved(s: Status): Status {
    if s.Stoped? then Stoped else Wait
  }

  function RecordOf(m: StageModule): Record {
    Record(m.name, Saved(m.status), if m.isList then Some(m.elem) else None)
  }

  function RecordsOf(st: Stage): (r: seq<Record>)
    ensures |r| == |st|
    ensures forall k :: 0 <= k < |st| ==> r[k] == RecordOf(st[k])
  {
    seq(|st|, k requires 0 <= k < |st| => RecordOf(st[k]))
  }

  function Save(p: Process): Checkpoint
    requires p.current < |p.stages|
  {
    Checkpoint(p.current, RecordsOf(Cur(p)))
  }

  function JumpTo(env: Env, p: Process, stage: nat): Process
    requires stage < |p.stages|
  {
    Rebuild(env, p.(current := stage))
  }

  /** A missing attribute counts as 0. */
  predicate Matches(r: Record, m: StageModule) {
    r.name == m.name && (m.isList ==> m.elem == (match r.listNum case Some(e) => e case None => 0))
  }

  function Shorter(records: seq<Record>, st: Stage): nat {
    if |records| < |st| then |records| else |st|
  }

  predicate AllMatch(records: seq<Record>, st: Stage) {
    forall k :: 0 <= k < Shorter(records, st) ==> Matches(records[k], st[k])
  }

  /** The stage with the statuses of the first `n` records. */
  function Restored(records: seq<Record>, st: Stage, n: nat): (r: Stage)
    requires n <= Shorter(records, st)
    ensures |r| == |st|
    ensures forall k :: 0 <= k < |st| ==> r[k] == if k < n then st[k].(status := records[k].status) else st[k]
  {
    seq(|st|, k requires 0 <= k < |st| => if k < n then st[k].(status := records[k].status) else st[k])
  }

  function AllWaiting(st: Stage): (r: Stage)
    ensures |r| == |st|
    ensures forall k :: 0 <= k < |st| ==> r[k] == st[k].(status := Wait)
  {
    seq(|st|, k requires 0 <= k < |st| => st[k].(status := Wait))
  }

  datatype Resumed = Resumed(p: Process, ok: bool)

  /** A record that does not match undoes the resume and starts the process over. */
  function ResumeFrom(env: Env, p: Process, c: Checkpoint): Resumed
    requires c.stage < |p.stages|
  {
    var q := JumpTo(env, p, c.stage);
    if AllMatch(c.records, Cur(q)) then
      Resumed(WithCur(q, Restored(c.records, Cur(q), Shorter(c.records, Cur(q)))), true)
    else
      Resumed(JumpTo(env, WithCur(q, AllWaiting(Cur(q))), 0), false)
  }

  /** What is saved: the stage, and of every module its name, whether it is stopped, and the
      number of a list element. */
  lemma SaveMeans(p: Process)
    requires p.current < |p.stages|
    ensures var c := Save(p);
            && c.stage == p.current && |c.records| == |p.stages[p.current]|
            && forall k :: 0 <= k < |c.records| ==>
                 var m := p.stages[p.current][k];
                 c.records[k] == Record(m.name, if m.status == Stoped then Stoped else Wait,
                                        if m.isList then Some(m.elem) else None)
  {
  }

  /** A record fits a module: the name and, for a list element, its number, where no number
      stands for 0. */
  predicate Fits(r: Record, m: StageModule) {
    r.name == m.name && (m.isList ==> r.listNum == Some(m.elem) || (r.listNum == None && m.elem == 0))
  }

  /** The plan in the given stage, with that stage expanded. */
  predicate IsIn(env: Env, plan: Process, q: Process, stage: nat) {
    stage < |plan.stages| &&
    q == plan.(current := stage, stages := plan.stages[stage := RebuildFrom(env, plan.id, plan.stages[stage], 0)])
  }

  /** A resume succeeds exactly if the records fit the modules of the plan's stage, as far as
      there are both; then the modules have the statuses of their records, and nothing else
      about the expanded plan changes. */
  lemma ResumeMeans(env: Env, plan: Process, c: Checkpoint)
    requires c.stage < |plan.stages|
    ensures exists q: Process ::
              && IsIn(env, plan, q, c.stage)
              && var r, st := ResumeFrom(env, plan, c), q.stages[c.stage];
              && (r.ok <==> forall k :: 0 <= k < |c.records| && k < |st| ==> Fits(c.records[k], st[k]))
              && (r.ok ==> r.p == q.(stages := r.p.stages) && r.p.stages == q.stages[c.stage := r.p.stages[c.stage]]
                           && |r.p.stages[c.stage]| == |st|
                           && forall k :: 0 <= k < |st| ==>
                                r.p.stages[c.stage][k] ==
                                  if k < |c.records| then st[k].(status := c.records[k].status) else st[k])
              && (!r.ok ==> exists t: Process :: StartsOver(q, t) && IsIn(env, t, r.p, 0))
  {
    hide RebuildFrom;
    var q := JumpTo(env, plan, c.stage);
    assert IsIn(env, plan, q, c.stage);
    forall k | 0 <= k < |c.records| && k < |Cur(q)|
      ensures Matches(c.records[k], Cur(q)[k]) <==> Fits(c.records[k], Cur(q)[k])
    {
    }
    if AllMatch(c.records, Cur(q)) {
      assert forall k :: 0 <= k < |c.records| && k < |Cur(q)| ==> Fits(c.records[k], Cur(q)[k]);
    } else {
      var t := WithCur(q, AllWaiting(Cur(q)));
      assert StartsOver(q, t) && IsIn(env, t, JumpTo(env, t, 0), 0);
    }
  }

  /** Every module of the current stage waits; nothing else has changed. */
  predicate StartsOver(q: Process, t: Process) {
    && q.current < |q.stages| == |t.stages| && t == q.(stages := q.stages[q.current := t.stages[q.current]])
    && |t.stages[q.current]| == |Cur(q)|
    && forall k :: 0 <= k < |Cur(q)| ==> t.stages[q.current][k] == Cur(q)[k].(status := Wait)
  }

  // ---- the round trip -----------------------------------------------------------------

  /** The stages hold the same modules, whatever their state. */
  predicate SameModules(a: Stage, b: Stage) {
    |a| == |b| && forall k :: 0 <= k < |a| ==>
      a[k].name == b[k].name && a[k].isList == b[k].isList && a[k].elem == b[k].elem
  }

  /** Work within a stage leaves its modules the same. */
  lemma WorkKeepsModules(st: Stage, n: nat, name: string, to: Status, sel: Selector)
    ensures SameModules(ClearStage(st, n), st) && SameModules(CreditStage(st, n, name, to), st)
    ensures SameModules(StopStage(st, sel), st) && SameModules(ResetStage(st), st)
  {
  }

  // ---- processes reached from a plan --------------------------------------------------------

  /** What may happen to a process.  `ready` is what is ready at that moment; the sizes of the
      lists do not change.  `Restart` is a new process that resumes from the plan with the
      control point `c`, one this process has written or any other. */
  datatype Work =
    | Check
    | Offer(n: nat, node: Node, ready: set<(int, string)>)
    | Clear(n: nat)
    | Report(n: nat, name: string, to: Status)
    | Stop(sel: Selector)
    | Back(stage: nat)
    | Restart(c: Checkpoint)

  function Do(env: Env, plan: Process, p: Process, w: Work): (q: Process)
    requires p.current < |p.stages| == |plan.stages| && p.id == plan.id
    ensures q.current < |q.stages| && |q.stages| == |p.stages| && q.id == p.id
  {
    match w
    case Check => (match CheckStage(env, p) case Goes(q) => q case Completes => p)
    case Offer(n, node, ready) =>
      (match GiveJob(env.(ready := ready), p, n, node) case Gives(q, _) => q case Refuses(q) => q case Ends => p)
    case Clear(n) => ClearJob(p, n)
    case Report(n, name, to) => Credit(p, n, name, to)
    case Stop(sel) => StopModules(p, sel)
    case Back(stage) => if stage > p.current then p else Rebuild(env, Rewind(p, stage))
    case Restart(c) => if c.stage >= |plan.stages| then p else ResumeFrom(env, plan, c).p
  }

  /** The process after it has started in stage `start` of its plan and all this has happened. */
  function Worked(env: Env, plan: Process, start: nat, works: seq<Work>): (p: Process)
    requires start < |plan.stages|
    ensures p.current < |p.stages| && |p.stages| == |plan.stages| && p.id == plan.id
  {
    if works == [] then JumpTo(env, plan, start)
    else Do(env, plan, Worked(env, plan, start, works[..|works| - 1]), works[|works| - 1])
  }

  function ExpandedStage(env: Env, plan: Process, k: nat): Stage
    requires k < |plan.stages|
  {
    RebuildFrom(env, plan.id, plan.stages[k], 0)
  }

  /** Every stage has the modules of the plan, expanded or not yet; the current one expanded. */
  predicate OnPlan(env: Env, plan: Process, p: Process) {
    && p.id == plan.id && |p.stages| == |plan.stages| && p.current < |p.stages|
    && SameModules(Cur(p), ExpandedStage(env, plan, p.current))
    && forall k :: 0 <= k < |p.stages| ==>
         SameModules(p.stages[k], plan.stages[k]) || SameModules(p.stages[k], ExpandedStage(env, plan, k))
  }

  /** Expansion looks at the modules only, and at the sizes of their lists. */
  lemma {:induction false} RebuildSame(env: Env, pid: int, a: Stage, b: Stage, k: nat)
    requires k <= |a| && SameModules(a, b)
    ensures SameModules(RebuildFrom(env, pid, a, k), RebuildFrom(env, pid, b, k))
    decreases CountUnexpanded(a[k..]), |a| - k
  {
    if k < |a| {
      if Unexpanded(a[k]) {
        var size := ListSize(env, pid, a[k].name);
        if size > 0 {
          var tail := Instances(a[k], 1, size);
          ExpansionShrinks(a, k, tail);
          RebuildSame(env, pid, a[k := a[k].(elem := 0)] + tail,
                      b[k := b[k].(elem := 0)] + Instances(b[k], 1, size), k);
        }
      } else {
        assert a[k..][1..] == a[k + 1..];
        RebuildSame(env, pid, a, b, k + 1);
      }
    }
  }

  lemma {:induction false} RebuildIgnoresReady(env: Env, ready: set<(int, string)>, pid: int, st: Stage, k: nat)
    requires k <= |st|
    ensures RebuildFrom(env.(ready := ready), pid, st, k) == RebuildFrom(env, pid, st, k)
    decreases CountUnexpanded(st[k..]), |st| - k
  {
    if k < |st| {
      if Unexpanded(st[k]) {
        var size := ListSize(env, pid, st[k].name);
        assert ListSize(env.(ready := ready), pid, st[k].name) == size;
        if size > 0 {
          var tail := Instances(st[k], 1, size);
          ExpansionShrinks(st, k, tail);
          RebuildIgnoresReady(env, ready, pid, st[k := st[k].(elem := 0)] + tail, k);
        }
      } else {
        assert st[k..][1..] == st[k + 1..];
        RebuildIgnoresReady(env, ready, pid, st, k + 1);
      }
    }
  }

  /** An expanded stage is not expanded again, with an empty list in it or not. */
  lemma RebuildTwice(env: Env, pid: int, st: Stage)
    ensures var r := RebuildFrom(env, pid, st, 0); RebuildFrom(env, pid, r, 0) == r
  {
    var r := RebuildFrom(env, pid, st, 0);
    if Filled(env, pid, st, |st|) {
      RebuildExpandsAll(env, pid, st);
      TailsAreExpanded(env, pid, st);
      assert r[0..] == r;
      RebuildInert(env, pid, r, 0);
    } else {
      var k := FirstEmpty(env, pid, st, |st|);
      RebuildStopsAtEmpty(env, pid, st, k);
      var before := Heads(st[..k]);
      assert r[..k] == before && r[k] == st[k].(status := Done);
      assert r == before + [r[k]] + r[k + 1..];
      RebuildStopsAtEmpty(env, pid, r, k);
      NoTails(env, pid, before);
      assert Heads(before) == before;
    }
  }

  lemma {:induction false} FirstEmpty(env: Env, pid: int, st: Stage, n: nat) returns (k: nat)
    requires n <= |st| && !Filled(env, pid, st, n)
    ensures k < n && Filled(env, pid, st, k) && Unexpanded(st[k]) && Size(env, pid, st[k]) == 0
  {
    if Filled(env, pid, st, n - 1) { k := n - 1; } else { k := FirstEmpty(env, pid, st, n - 1); }
  }

  lemma {:induction false} NoTails(env: Env, pid: int, st: Stage)
    requires Expanded(st)
    ensures Tails(env, pid, st) == []
  {
    if st != [] { NoTails(env, pid, st[..|st| - 1]); }
  }

  /** Whatever stage of a process on its plan is expanded becomes that of the plan, expanded. */
  lemma RebuiltIsExpanded(env: Env, plan: Process, st: Stage, k: nat)
    requires k < |plan.stages|
    requires SameModules(st, plan.stages[k]) || SameModules(st, ExpandedStage(env, plan, k))
    ensures SameModules(RebuildFrom(env, plan.id, st, 0), ExpandedStage(env, plan, k))
  {
    if SameModules(st, plan.stages[k]) {
      RebuildSame(env, plan.id, st, plan.stages[k], 0);
    } else {
      RebuildSame(env, plan.id, st, ExpandedStage(env, plan, k), 0);
      RebuildTwice(env, plan.id, plan.stages[k]);
    }
  }

  lemma JumpIsOnPlan(env: Env, plan: Process, p: Process, stage: nat)
    requires stage < |p.stages| && p.id == plan.id && |p.stages| == |plan.stages|
    requires forall k :: 0 <= k < |p.stages| ==>
      SameModules(p.stages[k], plan.stages[k]) || SameModules(p.stages[k], ExpandedStage(env, plan, k))
    ensures OnPlan(env, plan, JumpTo(env, p, stage))
  {
    hide RebuildFrom, SameModules;
    RebuiltIsExpanded(env, plan, p.stages[stage], stage);
  }

  /** Changing the state of modules of the current stage stays on the plan. */
  lemma StageIsOnPlan(env: Env, plan: Process, p: Process, st: Stage)
    requires OnPlan(env, plan, p) && SameModules(st, Cur(p))
    ensures OnPlan(env, plan, WithCur(p, st))
  {
    hide RebuildFrom;
  }

  lemma CheckIsOnPlan(env: Env, ready: set<(int, string)>, plan: Process, p: Process)
    requires OnPlan(env, plan, p)
    ensures match CheckStage(env.(ready := ready), p) case Goes(q) => OnPlan(env, plan, q) case Completes => true
  {
    hide RebuildFrom, SameModules;
    if StageDone(Cur(p)) && p.current < |p.stages| - 1 {
      RebuildIgnoresReady(env, ready, p.id, p.stages[p.current + 1], 0);
      JumpIsOnPlan(env, plan, p, p.current + 1);
    }
  }

  lemma RewindIsOnPlan(env: Env, plan: Process, p: Process, stage: nat)
    requires OnPlan(env, plan, p) && stage <= p.current
    ensures OnPlan(env, plan, Rebuild(env, Rewind(p, stage)))
  {
    hide RebuildFrom;
    var q := Rewind(p, stage);
    forall k | 0 <= k < |q.stages|
      ensures SameModules(q.stages[k], plan.stages[k]) || SameModules(q.stages[k], ExpandedStage(env, plan, k))
    {
      assert SameModules(q.stages[k], p.stages[k]);
    }
    JumpIsOnPlan(env, plan, q, stage);
    assert q.(current := stage) == q;
  }

  /** A process resumed from any control point, or started over because it does not match. */
  lemma ResumedIsOnPlan(env: Env, plan: Process, c: Checkpoint)
    requires c.stage < |plan.stages|
    ensures OnPlan(env, plan, ResumeFrom(env, plan, c).p)
  {
    hide RebuildFrom;
    var q := JumpTo(env, plan, c.stage);
    JumpIsOnPlan(env, plan, plan, c.stage);
    if AllMatch(c.records, Cur(q)) {
      StageIsOnPlan(env, plan, q, Restored(c.records, Cur(q), Shorter(c.records, Cur(q))));
    } else {
      StageIsOnPlan(env, plan, q, AllWaiting(Cur(q)));
      JumpIsOnPlan(env, plan, WithCur(q, AllWaiting(Cur(q))), 0);
    }
  }

  lemma DoIsOnPlan(env: Env, plan: Process, p: Process, w: Work)
    requires p.current < |p.stages| == |plan.stages| && p.id == plan.id && OnPlan(env, plan, p)
    ensures OnPlan(env, plan, Do(env, plan, p, w))
  {
    hide RebuildFrom, OnPlan, SameModules;
    var st := Cur(p);
    match w
    case Check =>
      CheckIsOnPlan(env, env.ready, plan, p);
      assert env.(ready := env.ready) == env;
    case Offer(n, node, ready) =>
      CheckIsOnPlan(env, ready, plan, p);
      if GiveJob(env.(ready := ready), p, n, node).Gives? {
        var q := CheckStage(env.(ready := ready), p).p;
        var j := FirstEligible(Cur(q), node);
        StartKeepsModules(Cur(q), j, n);
        StageIsOnPlan(env, plan, q, StartModule(Cur(q), j, n));
      }
    case Clear(n) =>
      WorkKeepsModules(st, n, "", Done, ByName(""));
      StageIsOnPlan(env, plan, p, ClearStage(st, n));
    case Report(n, name, to) =>
      WorkKeepsModules(st, n, name, to, ByName(""));
      StageIsOnPlan(env, plan, p, CreditStage(st, n, name, to));
    case Stop(sel) =>
      WorkKeepsModules(st, 0, "", Done, sel);
      StageIsOnPlan(env, plan, p, StopStage(st, sel));
    case Back(stage) =>
      if stage <= p.current { RewindIsOnPlan(env, plan, p, stage); }
    case Restart(c) =>
      if c.stage < |plan.stages| { ResumedIsOnPlan(env, plan, c); }
  }

  lemma StartKeepsModules(st: Stage, j: nat, n: int)
    requires j < |st|
    ensures SameModules(StartModule(st, j, n), st)
  {
  }

  lemma {:induction false} WorkedIsOnPlan(env: Env, plan: Process, start: nat, works: seq<Work>)
    requires start < |plan.stages|
    ensures OnPlan(env, plan, Worked(env, plan, start, works))
    decreases |works|
  {
    hide OnPlan, Do;
    if works == [] {
      JumpIsOnPlan(env, plan, plan, start);
    } else {
      var before := works[..|works| - 1];
      WorkedIsOnPlan(env, plan, start, before);
      DoIsOnPlan(env, plan, Worked(env, plan, start, before), works[|works| - 1]);
    }
  }

  /** A process as its plan defines it: nothing has been given out. */
  predicate NothingGivenOut(p: Process) {
    forall s, k :: 0 <= s < |p.stages| && 0 <= k < |p.stages[s]| ==>
      p.stages[s][k].status.Wait? && p.stages[s][k].node == -1
  }

  predicate NoNodes(st: Stage) {
    forall k :: 0 <= k < |st| ==> st[k].node == -1
  }

  lemma {:induction false} RebuildGivesNothingOut(env: Env, pid: int, st: Stage, k: nat)
    requires k <= |st| && NoNodes(st)
    ensures NoNodes(RebuildFrom(env, pid, st, k))
    decreases CountUnexpanded(st[k..]), |st| - k
  {
    if k < |st| {
      if Unexpanded(st[k]) {
        var size := ListSize(env, pid, st[k].name);
        if size > 0 {
          var tail := Instances(st[k], 1, size);
          ExpansionShrinks(st, k, tail);
          RebuildGivesNothingOut(env, pid, st[k := st[k].(elem := 0)] + tail, k);
        }
      } else {
        assert st[k..][1..] == st[k + 1..];
        RebuildGivesNothingOut(env, pid, st, k + 1);
      }
    }
  }

  /** The round trip for a process whose current stage is that of the plan, expanded. */
  lemma ResumeOnPlan(env: Env, plan: Process, p: Process)
    requires p.current < |p.stages| && p.current < |plan.stages| && NothingGivenOut(plan)
    requires SameModules(Cur(p), Cur(JumpTo(env, plan, p.current)))
    ensures var r := ResumeFrom(env, plan, Save(p));
            && r.ok && r.p.current == p.current
            && Save(r.p) == Save(p)
            && |Cur(r.p)| == |Cur(p)|
            && forall k :: 0 <= k < |Cur(p)| ==>
                Cur(r.p)[k] == Cur(p)[k].(status := Saved(Cur(p)[k].status), node := -1)
  {
    var q := JumpTo(env, plan, p.current);
    RebuildGivesNothingOut(env, plan.id, plan.stages[p.current], 0);
    var r := ResumeFrom(env, plan, Save(p));
    assert AllMatch(Save(p).records, Cur(q));
    assert Cur(r.p) == Restored(Save(p).records, Cur(q), |Cur(q)|);
    assert RecordsOf(Cur(r.p)) == RecordsOf(Cur(p));
  }

  /** A process that has started from its plan, saved after anything that may have happened to
      it, other resumes included, and resumed from the plan, is in the same stage, with the modules that were stopped
      stopped and all others, the finished ones too, to be done again; saving it once more
      writes the same file. */
  lemma ResumeRestores(env: Env, plan: Process, start: nat, works: seq<Work>)
    requires start < |plan.stages| && NothingGivenOut(plan)
    ensures var p := Worked(env, plan, start, works);
            var r := ResumeFrom(env, plan, Save(p));
            && r.ok && r.p.current == p.current
            && Save(r.p) == Save(p)
            && |Cur(r.p)| == |Cur(p)|
            && forall k :: 0 <= k < |Cur(p)| ==>
                Cur(r.p)[k] == Cur(p)[k].(status := Saved(Cur(p)[k].status), node := -1)
  {
    WorkedIsOnPlan(env, plan, start, works);
    var p := Worked(env, plan, start, works);
    hide Worked, RebuildFrom, ResumeFrom;
    ResumeOnPlan(env, plan, p);
  }

  /** The documentation promises that finished modules stay finished; a resume keeps what
      was over exactly if nothing in the stage had finished by itself. */
  lemma ResumeKeepsCreditIff(env: Env, plan: Process, start: nat, works: seq<Work>)
    requires start < |plan.stages| && NothingGivenOut(plan)
    ensures var p := Worked(env, plan, start, works);
            var st := Cur(ResumeFrom(env, plan, Save(p)).p);
            && |st| == |Cur(p)|
            && ((forall k :: 0 <= k < |st| ==> (Over(st[k]) <==> Over(Cur(p)[k])))
                <==> (forall k :: 0 <= k < |st| ==> !Cur(p)[k].status.Done?))
  {
    ResumeRestores(env, plan, start, works);
    var p := Worked(env, plan, start, works);
    var st := Cur(ResumeFrom(env, plan, Save(p)).p);
    hide Worked, ResumeFrom;
    assert forall k :: 0 <= k < |st| ==> (Over(st[k]) <==> Cur(p)[k].status.Stoped?);
    if k :| 0 <= k < |st| && Cur(p)[k].status.Done? {
      assert Over(Cur(p)[k]) && !Over(st[k]);
    }
  }

  // ---- a resume that fails ------------------------------------------------------------

  /** Over only because the list it works on is empty. */
  predicate NothingDone(st: Stage) {
    forall k :: 0 <= k < |st| ==> st[k].status.Wait? || (st[k].status.Done? && Unexpanded(st[k]))
  }

  lemma {:induction false} RebuildDoesNothing(env: Env, pid: int, st: Stage, k: nat)
    requires k <= |st| && NothingDone(st)
    requires forall j :: k <= j < |st| ==> st[j].status.Wait?
    ensures NothingDone(RebuildFrom(env, pid, st, k))
    decreases CountUnexpanded(st[k..]), |st| - k
  {
    if k < |st| {
      if Unexpanded(st[k]) {
        var size := ListSize(env, pid, st[k].name);
        if size > 0 {
          var tail := Instances(st[k], 1, size);
          ExpansionShrinks(st, k, tail);
          RebuildDoesNothing(env, pid, st[k := st[k].(elem := 0)] + tail, k);
        }
      } else {
        assert st[k..][1..] == st[k + 1..];
        RebuildDoesNothing(env, pid, st, k + 1);
      }
    }
  }

  /** A control point that does not fit its plan restarts the process in its first stage,
      with no module credited there or in the stage of the control point. */
  lemma FailedResumeCreditsNothing(env: Env, plan: Process, c: Checkpoint)
    requires c.stage < |plan.stages| && NothingGivenOut(plan)
    ensures var r := ResumeFrom(env, plan, c);
            && (r.ok <==> AllMatch(c.records, Cur(JumpTo(env, plan, c.stage))))
            && (!r.ok ==> r.p.current == 0 && |r.p.stages| == |plan.stages| &&
                          NothingDone(r.p.stages[0]) && NothingDone(r.p.stages[c.stage]))
  {
    var q := JumpTo(env, plan, c.stage);
    if !AllMatch(c.records, Cur(q)) {
      var s := WithCur(q, AllWaiting(Cur(q)));
      assert forall k :: 0 <= k < |s.stages[0]| ==> s.stages[0][k].status.Wait?;
      RebuildDoesNothing(env, s.id, s.stages[0], 0);
    }
  }

  // ---- the class ----------------------------------------------------------------------

  class DiscompProcessControlPoint {
    const process: DiscompProcess
    var planSum: string
    /** The control point file, if there is one. */
    var file: Option<Checkpoint>

    constructor (process: DiscompProcess, file: Option<Checkpoint>)
      ensures this.process == process && this.file == file && planSum == ""
    {
      this.process, this.file, this.planSum := process, file, "";
    }

    method Start(sum: string)
      modifies this
      ensures planSum == sum && file == None
    {
      planSum := sum;
      file := None;
    }

    method Create() returns (done: bool)
      requires process.Valid()
      modifies this
      ensures done <==> planSum != ""
      ensures planSum == old(planSum)
      ensures file == if done then Some(Save(process.State())) else old(file)
    {
      if planSum == "" {
        return false;
      }
      var st := process.stages[process.currentStage];
      var records: seq<Record> := [];
      for k := 0 to |st|
        invariant |records| == k
        invariant forall j :: 0 <= j < k ==> records[j] == RecordOf(st[j])
      {
        var status := st[k].status;
        if status != Stoped {
          status := Wait;
        }
        records := records + [Record(st[k].name, status, if st[k].isList then Some(st[k].elem) else None)];
      }
      assert records == RecordsOf(st);
      file := Some(Checkpoint(process.currentStage, records));
      return true;
    }

    method ResetModulesState()
      requires process.Valid()
      modifies process`stages
      ensures process.Valid() && process.State() == WithCur(old(process.State()), AllWaiting(Cur(old(process.State()))))
    {
      ghost var was := process.stages[process.currentStage];
      var k := 0;
      while k < |process.stages[process.currentStage]|
        invariant process.Valid() && k <= |process.stages[process.currentStage]| == |was|
        invariant process.stages == old(process.stages)[process.currentStage := process.stages[process.currentStage]]
        invariant forall j :: 0 <= j < |was| ==>
                    process.stages[process.currentStage][j] == if j < k then was[j].(status := Wait) else was[j]
      {
        process.SetModule(k, process.stages[process.currentStage][k].(status := Wait));
        k := k + 1;
      }
      assert process.stages[process.currentStage] == AllWaiting(was);
    }

    method Resume(env: Env) returns (ok: bool)
      requires file.Some? ==> file.value.stage < |process.stages|
      requires process.stages != []
      modifies process
      ensures file.None? ==> !ok && process.State() == old(process.State())
      ensures file.Some? ==> process.Valid()
      ensures file.Some? ==> Resumed(process.State(), ok) == ResumeFrom(env, old(process.State()), file.value)
    {
      hide Rebuild, RebuildFrom;
      if file.None? {
        return false;
      }
      var c := file.value;
      process.JumpToTheStage(env, c.stage);
      ghost var q := process.State();
      assert Restored(c.records, Cur(q), 0) == Cur(q) && WithCur(q, Cur(q)) == q;
      var k := 0;
      while k < |c.records| && k < |process.stages[process.currentStage]|
        invariant process.Valid() && k <= Shorter(c.records, Cur(q))
        invariant process.State() == WithCur(q, Restored(c.records, Cur(q), k))
        invariant forall j :: 0 <= j < k ==> Matches(c.records[j], Cur(q)[j])
      {
        var m, r := process.stages[process.currentStage][k], c.records[k];
        var listNum := match r.listNum case Some(e) => e case None => 0;
        if r.name != m.name || (m.isList && m.elem != listNum) {
          assert !Matches(c.records[k], Cur(q)[k]);
          ResetModulesState();
          assert process.State() == WithCur(q, AllWaiting(Cur(q))) by {
            assert AllWaiting(Restored(c.records, Cur(q), k)) == AllWaiting(Cur(q));
          }
          process.JumpToTheStage(env, 0);
          return false;
        }
        process.SetModule(k, m.(status := r.status));
        assert process.stages[process.currentStage] == Restored(c.records, Cur(q), k + 1);
        k := k + 1;
      }
      return true;
    }
  }
}
