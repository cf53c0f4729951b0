/** What the expansion of list modules produces, stated without its loop. */
module Lists {
  import opened Entities
  import opened ProcessSteps

  function Size(env: Env, pid: int, m: StageModule): nat {
    ListSize(env, pid, m.name)
  }

  function Head(m: StageModule): StageModule {
    if Unexpanded(m) then m.(elem := 0) else m
  }

  function More(env: Env, pid: int, m: StageModule): Stage {
    if Unexpanded(m) && Size(env, pid, m) > 0 then Instances(m, 1, Size(env, pid, m)) else []
  }

  /** Each list module of a stage in place, as its own first element. */
  function Heads(st: Stage): (r: Stage)
    ensures |r| == |st|
    ensures forall j :: 0 <= j < |st| ==> r[j] == Head(st[j])
  {
    seq(|st|, j requires 0 <= j < |st| => Head(st[j]))
  }

  /** The further elements of every list, list by list. */
  function Tails(env: Env, pid: int, st: Stage): Stage {
    if st == [] then [] else Tails(env, pid, st[..|st| - 1]) + More(env, pid, st[|st| - 1])
  }

  /** All list modules before `k` have a list with an element. */
  predicate Filled(env: Env, pid: int, st: Stage, k: nat)
    requires k <= |st|
  {
    forall j :: 0 <= j < k && Unexpanded(st[j]) ==> Size(env, pid, st[j]) > 0
  }

  predicate Expanded(st: Stage) {
    forall j :: 0 <= j < |st| ==> !Unexpanded(st[j])
  }

  lemma {:induction false} TailsAreExpanded(env: Env, pid: int, st: Stage)
    ensures Expanded(Tails(env, pid, st))
  {
    if st != [] { TailsAreExpanded(env, pid, st[..|st| - 1]); }
  }

  /** The loop does nothing to modules that are expanded. */
  lemma {:induction false} RebuildInert(env: Env, pid: int, st: Stage, k: nat)
    requires k <= |st| && Expanded(st[k..])
    ensures RebuildFrom(env, pid, st, k) == st
    decreases |st| - k
  {
    if k < |st| {
      assert st[k..][0] == st[k] && st[k + 1..] == st[k..][1..];
      RebuildInert(env, pid, st, k + 1);
    }
  }

  /** The vector when the loop has passed the first `k` of the modules it started with. */
  function Halfway(env: Env, pid: int, st: Stage, k: nat): Stage
    requires k <= |st|
  {
    Heads(st[..k]) + st[k..] + Tails(env, pid, st[..k])
  }

  lemma HalfwayGrows(env: Env, pid: int, st: Stage, k: nat)
    requires k < |st| && Filled(env, pid, st, k + 1)
    ensures Halfway(env, pid, st, k)[k] == st[k] && !Unexpanded(Halfway(env, pid, st, k + 1)[k])
    ensures Halfway(env, pid, st, k + 1) == Halfway(env, pid, st, k)[k := Head(st[k])] + More(env, pid, st[k])
  {
    hide Instances, Size;
    assert st[..k + 1][..k] == st[..k] && st[..k + 1][k] == st[k];
    var before, after, tails := Heads(st[..k]), st[k + 1..], Tails(env, pid, st[..k]);
    assert Heads(st[..k + 1]) == before + [Head(st[k])];
    assert st[k..] == [st[k]] + after;
    Replaced(before, st[k], after, tails, Head(st[k]), More(env, pid, st[k]));
  }

  lemma Replaced(before: Stage, x: StageModule, after: Stage, tails: Stage, y: StageModule, more: Stage)
    ensures var all := before + ([x] + after) + tails;
            all[|before|] == x && all[|before| := y] + more == before + [y] + after + (tails + more)
  {
  }

  lemma HalfwayStep(env: Env, pid: int, st: Stage, k: nat)
    requires k < |st| && Filled(env, pid, st, k + 1)
    ensures RebuildFrom(env, pid, Halfway(env, pid, st, k), k) ==
      RebuildFrom(env, pid, Halfway(env, pid, st, k + 1), k + 1)
  {
    var h, h' := Halfway(env, pid, st, k), Halfway(env, pid, st, k + 1);
    HalfwayGrows(env, pid, st, k);
    if Unexpanded(st[k]) {
      assert RebuildFrom(env, pid, h, k) == RebuildFrom(env, pid, h', k);
    } else {
      assert h == h';
    }
  }

  lemma {:induction false} ReachHalfway(env: Env, pid: int, st: Stage, k: nat)
    requires k <= |st| && Filled(env, pid, st, k)
    ensures RebuildFrom(env, pid, st, 0) == RebuildFrom(env, pid, Halfway(env, pid, st, k), k)
  {
    if k == 0 {
      assert Halfway(env, pid, st, 0) == st;
    } else {
      ReachHalfway(env, pid, st, k - 1);
      HalfwayStep(env, pid, st, k - 1);
    }
  }

  /** When no list is empty, every list module becomes its first element in place and the
      other elements follow at the end of the stage. */
  lemma RebuildExpandsAll(env: Env, pid: int, st: Stage)
    requires Filled(env, pid, st, |st|)
    ensures RebuildFrom(env, pid, st, 0) == Heads(st) + Tails(env, pid, st)
  {
    ReachHalfway(env, pid, st, |st|);
    assert st[..|st|] == st;
    var r := Halfway(env, pid, st, |st|);
    assert r == Heads(st) + Tails(env, pid, st);
    TailsAreExpanded(env, pid, st);
    RebuildInert(env, pid, r, |st|);
  }

  /** The first empty list marks its module done and leaves every later list unexpanded. */
  lemma RebuildStopsAtEmpty(env: Env, pid: int, st: Stage, k: nat)
    requires k < |st| && Filled(env, pid, st, k) && Unexpanded(st[k]) && Size(env, pid, st[k]) == 0
    ensures RebuildFrom(env, pid, st, 0) ==
            Heads(st[..k]) + [st[k].(status := Done)] + st[k + 1..] + Tails(env, pid, st[..k])
  {
    ReachHalfway(env, pid, st, k);
    assert Halfway(env, pid, st, k)[k] == st[k];
  }

  /** What a module stands for: one instance per element, or itself. */
  function Meaning(env: Env, pid: int, m: StageModule): multiset<StageModule> {
    if Unexpanded(m) then multiset(Instances(m, 0, Size(env, pid, m))) else multiset{m}
  }

  function StageMeaning(env: Env, pid: int, st: Stage): multiset<StageModule> {
    if st == [] then multiset{} else StageMeaning(env, pid, st[..|st| - 1]) + Meaning(env, pid, st[|st| - 1])
  }

  /** A list module that has not been given out yet. */
  predicate Unassigned(st: Stage) {
    forall j :: 0 <= j < |st| && Unexpanded(st[j]) ==> st[j].status.Wait? && st[j].node == -1
  }

  lemma Rearranged(a: Stage, x: StageModule, b: Stage, c: Stage)
    ensures multiset((a + [x]) + (b + c)) == multiset(a + b) + multiset([x] + c)
  {
  }

  lemma MeaningSplits(env: Env, pid: int, m: StageModule)
    requires Unexpanded(m) ==> Size(env, pid, m) > 0 && m.status.Wait? && m.node == -1
    ensures Meaning(env, pid, m) == multiset([Head(m)] + More(env, pid, m))
  {
    if Unexpanded(m) { assert Instances(m, 0, Size(env, pid, m)) == [Head(m)] + More(env, pid, m); }
  }

  lemma ExpansionSplits(env: Env, pid: int, st: Stage)
    requires st != []
    ensures var rest, m := st[..|st| - 1], st[|st| - 1];
            Heads(st) == Heads(rest) + [Head(m)] && Tails(env, pid, st) == Tails(env, pid, rest) + More(env, pid, m)
  {
  }

  lemma {:induction false} ExpansionMeaning(env: Env, pid: int, st: Stage)
    requires Filled(env, pid, st, |st|) && Unassigned(st)
    ensures multiset(Heads(st) + Tails(env, pid, st)) == StageMeaning(env, pid, st)
  {
    if st == [] {
      assert Heads(st) + Tails(env, pid, st) == [];
    } else {
      var rest, m := st[..|st| - 1], st[|st| - 1];
      ExpansionMeaning(env, pid, rest);
      ExpansionSplits(env, pid, st);
      MeaningSplits(env, pid, m);
      Rearranged(Heads(rest), Head(m), Tails(env, pid, rest), More(env, pid, m));
    }
  }

  /** List expansion is exact: one module per element 0..n-1 of each list, every other
      module as it was, and a second expansion changes nothing. */
  lemma RebuildIsExact(env: Env, pid: int, st: Stage)
    requires Filled(env, pid, st, |st|) && Unassigned(st)
    ensures var r := RebuildFrom(env, pid, st, 0);
            multiset(r) == StageMeaning(env, pid, st) && Expanded(r) && RebuildFrom(env, pid, r, 0) == r
  {
    var r := RebuildFrom(env, pid, st, 0);
    RebuildExpandsAll(env, pid, st);
    ExpansionMeaning(env, pid, st);
    TailsAreExpanded(env, pid, st);
    assert r[0..] == r;
    RebuildInert(env, pid, r, 0);
  }

  lemma TailsGrow(env: Env, pid: int, st: Stage)
    requires st != []
    ensures Tails(env, pid, st) == Tails(env, pid, st[..|st| - 1]) + More(env, pid, st[|st| - 1])
  {
    hide More;
  }

  lemma MoreHas(env: Env, pid: int, m: StageModule, e: nat)
    requires Unexpanded(m) && 1 <= e < Size(env, pid, m)
    ensures e - 1 < |More(env, pid, m)| && More(env, pid, m)[e - 1] == Instance(m, e)
  {
  }

  lemma {:induction false} TailsHave(env: Env, pid: int, st: Stage, j: nat, e: nat)
    requires j < |st| && Unexpanded(st[j]) && 1 <= e < Size(env, pid, st[j])
    ensures exists k :: 0 <= k < |Tails(env, pid, st)| && Tails(env, pid, st)[k] == Instance(st[j], e)
  {
    hide Tails, More, Instance;
    var last := |st| - 1;
    var before, more, all := Tails(env, pid, st[..last]), More(env, pid, st[last]), Tails(env, pid, st);
    TailsGrow(env, pid, st);
    if j < last {
      TailsHave(env, pid, st[..last], j, e);
      var k :| 0 <= k < |before| && before[k] == Instance(st[j], e);
      assert all[k] == before[k];
    } else {
      MoreHas(env, pid, st[j], e);
      assert all[|before| + e - 1] == more[e - 1];
    }
  }

  /** The list of module `m` is there and has an element. */
  predicate HasElements(env: Env, pid: int, m: StageModule) {
    (pid, m.name) in env.listSize && env.listSize[(pid, m.name)] > 0
  }

  /** No list module before `k` that is still to be expanded is without elements. */
  predicate AllHaveElements(env: Env, pid: int, st: Stage, k: nat)
    requires k <= |st|
  {
    forall j :: 0 <= j < k && st[j].isList && st[j].elem == -1 ==> HasElements(env, pid, st[j])
  }

  /** What becomes of a module in its own place. */
  function InPlace(m: StageModule): StageModule {
    if m.isList && m.elem == -1 then StageModule(m.name, m.status, m.node, true, 0) else m
  }

  /** When no list is empty: a list module is in its own place as element 0, and a module of no
      list as it was. */
  lemma HeadsAreThere(env: Env, pid: int, st: Stage, j: nat)
    requires j < |st| && AllHaveElements(env, pid, st, |st|)
    ensures var r := RebuildFrom(env, pid, st, 0); |st| <= |r| && r[j] == InPlace(st[j])
  {
    RebuildExpandsAll(env, pid, st);
    assert RebuildFrom(env, pid, st, 0)[j] == Heads(st)[j];
  }

  /** And every further element of its list waits behind them, on no node. */
  lemma ElementsAreThere(env: Env, pid: int, st: Stage, j: nat, e: nat)
    requires j < |st| && AllHaveElements(env, pid, st, |st|) && st[j].isList && st[j].elem == -1
    requires 1 <= e < env.listSize[(pid, st[j].name)]
    ensures var r := RebuildFrom(env, pid, st, 0);
            exists k :: |st| <= k < |r| && r[k] == StageModule(st[j].name, Wait, -1, true, e)
  {
    var r, tails := RebuildFrom(env, pid, st, 0), Tails(env, pid, st);
    RebuildExpandsAll(env, pid, st);
    TailsHave(env, pid, st, j, e);
    var k :| 0 <= k < |tails| && tails[k] == Instance(st[j], e);
    assert r[|st| + k] == tails[k];
  }

  /** The first list module without elements, or without a list, is done; the modules before
      it are expanded and those behind it are as they were. */
  lemma EmptyListEnds(env: Env, pid: int, st: Stage, k: nat, j: nat)
    requires j < |st| && k < |st| && AllHaveElements(env, pid, st, k)
    requires st[k].isList && st[k].elem == -1 && !HasElements(env, pid, st[k])
    ensures var r := RebuildFrom(env, pid, st, 0);
            && |st| <= |r|
            && r[j] == if j < k then InPlace(st[j]) else if j == k then st[k].(status := Done) else st[j]
  {
    RebuildStopsAtEmpty(env, pid, st, k);
  }
}
