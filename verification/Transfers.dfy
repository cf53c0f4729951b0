/** Two sockets, one of which sends files to the other: every file the sender can open and
    the receiver can store arrives, over every run. */
module Transfers {
  import opened Messages
  import opened FileTransfer

  /** What does not change during a run: the two hosts, the sender's disk and the receiver's
      disk as it was at the beginning. */
  datatype Setting = Setting(ha: Host, hb: Host, fa: map<string, seq<Byte>>, fb: map<string, seq<Byte>>)

  /** Each side has handled the first parcels the other one sent. */
  datatype Net = Net(a: Endpoint, b: Endpoint, seenByA: nat, seenByB: nat)

  datatype Act = Want(task: Task) | WantAll(tasks: seq<Task>) | ToB | ToA

  predicate Enabled(n: Net, act: Act) {
    (act.ToB? ==> n.seenByB < |n.a.sent|) && (act.ToA? ==> n.seenByA < |n.b.sent|)
  }

  function Move(w: Setting, n: Net, act: Act): Net
    requires Enabled(n, act)
  {
    match act
    case Want(t) => n.(a := Prepare(n.a, t))
    case WantAll(ts) => n.(a := PrepareAll(n.a, ts))
    case ToB => n.(b := Handle(w.hb, n.b, n.a.sent[n.seenByB]), seenByB := n.seenByB + 1)
    case ToA => n.(a := Handle(w.ha, n.a, n.b.sent[n.seenByA]), seenByA := n.seenByA + 1)
  }

  function New(files: map<string, seq<Byte>>): Endpoint {
    Endpoint(files, false, [], Closed, "", [], [])
  }

  function Place(w: Setting, t: Task): string {
    w.hb.place(t.dir, t.name)
  }

  predicate Storable(w: Setting, t: Task) {
    t.path in w.fa && w.hb.writable(Place(w, t))
  }

  /** The receiver's disk once these files have been sent, one after the other. */
  function Stored(w: Setting, ts: seq<Task>): map<string, seq<Byte>> {
    if ts == [] then w.fb
    else
      var t, before := ts[|ts| - 1], Stored(w, ts[..|ts| - 1]);
      if Storable(w, t) then before[Place(w, t) := w.fa[t.path]] else before
  }

  /** What the receiver has reported by then; files the sender cannot open are never announced. */
  function Receipts(w: Setting, ts: seq<Task>): seq<Receipt> {
    if ts == [] then []
    else
      var t, before := ts[|ts| - 1], Receipts(w, ts[..|ts| - 1]);
      if t.path in w.fa then before + [Receipt(Place(w, t), Storable(w, t))] else before
  }

  /** The parcels one file takes: two requests, two answers and its blocks; or one of each. */
  function Cost(w: Setting, t: Task): nat {
    if Storable(w, t) then |Cut(w.fa[t.path])| + 4 else if t.path in w.fa then 2 else 0
  }

  function Costs(w: Setting, ts: seq<Task>): nat {
    if ts == [] then 0 else Costs(w, ts[..|ts| - 1]) + Cost(w, ts[|ts| - 1])
  }

  /** How far the transfer of a file is. */
  datatype Phase = Idle | Asked | Refused | Accepted | Streaming(k: nat) | Confirmed

  /** The parcels of file `t` handled so far. */
  function Steps(w: Setting, t: Task, phase: Phase): nat {
    match phase
    case Idle => 0
    case Asked => 0
    case Refused => 1
    case Accepted => 1
    case Streaming(k) => 2 + k
    case Confirmed => if t.path in w.fa then |Cut(w.fa[t.path])| + 3 else 0
  }

  function InFlightToB(n: Net): seq<Parcel>
    requires n.seenByB <= |n.a.sent|
  {
    n.a.sent[n.seenByB..]
  }

  function InFlightToA(n: Net): seq<Parcel>
    requires n.seenByA <= |n.b.sent|
  {
    n.b.sent[n.seenByA..]
  }

  predicate Quiet(n: Net) {
    n.seenByB == |n.a.sent| && n.seenByA == |n.b.sent|
  }

  predicate Scene(w: Setting, n: Net) {
    && n.seenByB <= |n.a.sent| && n.seenByA <= |n.b.sent|
    && n.a.files == w.fa && n.b.queue == [] && n.a.received == []
  }

  predicate Resting(w: Setting, n: Net, done: seq<Task>) {
    && Scene(w, n) && Quiet(n) && !n.a.busy && !n.b.busy && n.seenByA + n.seenByB == Costs(w, done)
    && n.b.files == Stored(w, done) && n.b.received == Receipts(w, done)
  }

  /** The state of the system while task `t` is being sent and those in `done` have been. */
  predicate Sending(w: Setting, n: Net, done: seq<Task>, t: Task, phase: Phase) {
    && Scene(w, n) && t.path in w.fa && n.a.busy && n.a.current == t.path
    && n.seenByA + n.seenByB == Costs(w, done) + Steps(w, t, phase)
    && var p, data := Place(w, t), w.fa[t.path];
       match phase
       case Idle => false
       case Asked =>
         && InFlightToB(n) == [Text(RequestFor(w.fa, t))] && InFlightToA(n) == [] && n.a.device == Reading(data)
         && !n.b.busy && n.b.files == Stored(w, done) && n.b.received == Receipts(w, done)
       case Refused =>
         && InFlightToB(n) == [] && InFlightToA(n) == [Text(FileAnswer(0))] && !w.hb.writable(p)
         && !n.b.busy && n.b.files == Stored(w, done + [t]) && n.b.received == Receipts(w, done + [t])
       case Accepted =>
         && InFlightToB(n) == [] && InFlightToA(n) == [Text(FileAnswer(1))] && n.a.device == Reading(data)
         && Arriving(w, n, done, t, [])
       case Streaming(k) =>
         && k <= |Cut(data)| && InFlightToA(n) == []
         && InFlightToB(n) == Binaries(Cut(data))[k..] + [Text(CheckRequest(w.ha.digest(data)))]
         && Arriving(w, n, done, t, Flat(Cut(data)[..k]))
       case Confirmed =>
         && InFlightToB(n) == [] && InFlightToA(n) == [Text(CheckAnswer(1))]
         && w.hb.writable(p)
         && !n.b.busy && n.b.files == Stored(w, done + [t]) && n.b.received == Receipts(w, done + [t])
  }

  /** The receiver has `got` of the file. */
  predicate Arriving(w: Setting, n: Net, done: seq<Task>, t: Task, got: seq<Byte>)
    requires t.path in w.fa
  {
    && w.hb.writable(Place(w, t)) && n.b.busy && n.b.device == Writing(Place(w, t)) && n.b.current == Place(w, t)
    && n.b.files == Stored(w, done)[Place(w, t) := got] && n.b.received == Receipts(w, done)
  }

  /** `wanted` are the files asked for so far, the first of them `done`. */
  predicate Inv(w: Setting, n: Net, wanted: seq<Task>, done: seq<Task>, phase: Phase) {
    if phase == Idle then Resting(w, n, done) && n.a.queue == [] && wanted == done
    else
      && |done| < |wanted| && wanted == done + [wanted[|done|]] + n.a.queue
      && Sending(w, n, done, wanted[|done|], phase)
  }

  lemma StoredAfter(w: Setting, done: seq<Task>, t: Task)
    ensures Stored(w, done + [t]) ==
            if Storable(w, t) then Stored(w, done)[Place(w, t) := w.fa[t.path]] else Stored(w, done)
    ensures Receipts(w, done + [t]) ==
            if t.path in w.fa then Receipts(w, done) + [Receipt(Place(w, t), Storable(w, t))] else Receipts(w, done)
    ensures Costs(w, done + [t]) == Costs(w, done) + Cost(w, t)
  {
    assert (done + [t])[..|done|] == done;
  }

  lemma {:induction false} CutFlat(bytes: seq<Byte>)
    ensures Flat(Cut(bytes)) == bytes
    ensures forall i :: 0 <= i < |Cut(bytes)| ==> 1 <= |Cut(bytes)[i]| <= FILE_BLOCK
  {
    if bytes != [] {
      if |bytes| <= FILE_BLOCK {
        assert Flat([bytes]) == bytes + Flat([]);
      } else {
        CutFlat(bytes[FILE_BLOCK..]);
        assert bytes == bytes[..FILE_BLOCK] + bytes[FILE_BLOCK..];
      }
    }
  }

  lemma FlatNext(chunks: seq<Piece>, k: nat)
    requires k < |chunks|
    ensures Flat(chunks[..k + 1]) == Flat(chunks[..k]) + chunks[k]
  {
    assert chunks[..k + 1] == chunks[..k] + [chunks[k]];
    FlatOfTwo(chunks[..k], [chunks[k]]);
    assert Flat([chunks[k]]) == chunks[k] + Flat([]);
  }

  // ---- each step keeps it -----------------------------------------------------------

  /** The sender turns to its queue. */
  lemma {:induction false} NextFile(w: Setting, n: Net, done: seq<Task>)
    returns (after: seq<Task>, phase: Phase)
    requires Resting(w, n, done)
    ensures Inv(w, n.(a := CheckQueue(n.a)), done + n.a.queue, after, phase)
    decreases |n.a.queue|
  {
    if n.a.queue == [] {
      after, phase := done, Idle;
      assert done + [] == done;
    } else {
      var t, rest := n.a.queue[0], n.a.queue[1..];
      StoredAfter(w, done, t);
      assert done + n.a.queue == (done + [t]) + rest;
      var e := n.a.(queue := rest);
      if t.path in w.fa {
        after, phase := done, Asked;
        assert CheckQueue(n.a) == Prepare(e, t);
      } else {
        var m := n.(a := e.(device := Closed, current := ""));
        assert CheckQueue(n.a) == CheckQueue(m.a);
        after, phase := NextFile(w, m, done + [t]);
        assert m.(a := CheckQueue(m.a)) == n.(a := CheckQueue(n.a));
      }
    }
  }

  /** New files are asked for. */
  lemma WantKeeps(w: Setting, n: Net, ts: seq<Task>, wanted: seq<Task>, done: seq<Task>, phase: Phase)
    returns (after: seq<Task>, next: Phase)
    requires Inv(w, n, wanted, done, phase)
    ensures Inv(w, n.(a := PrepareAll(n.a, ts)), wanted + ts, after, next)
  {
    var m := n.(a := n.a.(queue := n.a.queue + ts));
    if phase == Idle {
      after, next := NextFile(w, m, done);
      assert [] + ts == ts;
    } else {
      after, next := done, phase;
      assert wanted + ts == done + [wanted[|done|]] + (n.a.queue + ts);
    }
  }

  /** The form for one file does the same, because nothing waits while the sender is idle. */
  lemma OneIsMany(n: Endpoint, t: Task)
    requires !n.busy ==> n.queue == []
    ensures Prepare(n, t) == PrepareAll(n, [t])
  {
    if !n.busy {
      assert [] + [t] == [t] && [t][1..] == [];
      assert n.(queue := []) == n;
    }
  }

  lemma AskedKeeps(w: Setting, n: Net, done: seq<Task>, t: Task) returns (next: Phase)
    requires Sending(w, n, done, t, Asked)
    ensures Enabled(n, ToB) && !Enabled(n, ToA)
    ensures next != Idle && Sending(w, Move(w, n, ToB), done, t, next)
  {
    StoredAfter(w, done, t);
    assert n.a.sent[n.seenByB] == InFlightToB(n)[0];
    next := if w.hb.writable(Place(w, t)) then Accepted else Refused;
  }

  lemma AcceptedKeeps(w: Setting, n: Net, done: seq<Task>, t: Task)
    requires Sending(w, n, done, t, Accepted)
    ensures Enabled(n, ToA) && !Enabled(n, ToB)
    ensures Sending(w, Move(w, n, ToA), done, t, Streaming(0))
    ensures Move(w, n, ToA).a.queue == n.a.queue
  {
    hide Stored, Receipts, Costs, Cut, Binaries, Prepare, CheckQueue, Flat;
    var data := w.fa[t.path];
    assert n.b.sent[n.seenByA] == InFlightToA(n)[0] == Text(FileAnswer(1));
    assert Cut(data)[..0] == [] && Flat([]) == [] by { FlatOfNone(); }
    var m := Move(w, n, ToA);
    assert m == n.(a := SendBinary(w.ha, n.a), seenByA := n.seenByA + 1);
    var news := Binaries(Cut(data)) + [Text(CheckRequest(w.ha.digest(data)))];
    assert m.a.sent == n.a.sent + news;
    assert InFlightToB(m) == news && Binaries(Cut(data))[0..] == Binaries(Cut(data));
  }

  lemma FlatOfNone()
    ensures Flat([]) == []
  {
  }

  lemma StreamingKeeps(w: Setting, n: Net, done: seq<Task>, t: Task, k: nat)
    requires t.path in w.fa && k < |Cut(w.fa[t.path])| && Sending(w, n, done, t, Streaming(k))
    ensures Enabled(n, ToB) && !Enabled(n, ToA)
    ensures Sending(w, Move(w, n, ToB), done, t, Streaming(k + 1))
  {
    hide Stored, Receipts, Costs, Cut, Binaries, Prepare, CheckQueue, Flat;
    var chunks, before, p := Cut(w.fa[t.path]), Stored(w, done), Place(w, t);
    assert n.a.sent[n.seenByB] == InFlightToB(n)[0] == Binary(chunks[k]);
    FlatNext(chunks, k);
    var got, more := Flat(chunks[..k]), Flat(chunks[..k + 1]);
    var m := Move(w, n, ToB);
    assert m == n.(b := ReceiveBinary(n.b, chunks[k]), seenByB := n.seenByB + 1);
    assert n.b.files[p] == got;
    assert m.b.files == before[p := got][p := more] == before[p := more];
    assert InFlightToB(m) == InFlightToB(n)[1..];
  }

  /** The whole file is there when the check arrives, so the sums agree. */
  lemma CheckSucceeds(w: Setting, n: Net, done: seq<Task>, t: Task)
    requires w.ha.digest == w.hb.digest
    requires t.path in w.fa && Sending(w, n, done, t, Streaming(|Cut(w.fa[t.path])|))
    ensures Enabled(n, ToB) && !Enabled(n, ToA)
    ensures Sending(w, Move(w, n, ToB), done, t, Confirmed)
  {
    var data := w.fa[t.path];
    StoredAfter(w, done, t);
    CutFlat(data);
    assert Cut(data)[..|Cut(data)|] == Cut(data);
    assert n.a.sent[n.seenByB] == InFlightToB(n)[0] == Text(CheckRequest(w.ha.digest(data)));
    assert InFlightToB(Move(w, n, ToB)) == [];
  }

  /** The last answer, of either kind, frees the sender for the next file. */
  lemma AnsweredKeeps(w: Setting, n: Net, done: seq<Task>, t: Task, phase: Phase)
    returns (after: seq<Task>, next: Phase)
    requires phase in {Refused, Confirmed} && Sending(w, n, done, t, phase)
    ensures Enabled(n, ToA) && !Enabled(n, ToB)
    ensures Inv(w, Move(w, n, ToA), done + [t] + n.a.queue, after, next)
  {
    assert n.b.sent[n.seenByA] == InFlightToA(n)[0];
    var current := if phase == Refused then n.a.current else "";
    var m := n.(a := n.a.(device := Closed, busy := false, current := current), seenByA := n.seenByA + 1);
    assert |InFlightToA(n)| == 1 && |InFlightToB(n)| == 0;
    StoredAfter(w, done, t);
    after, next := NextFile(w, m, done + [t]);
    assert m.(a := CheckQueue(m.a)) == Move(w, n, ToA);
  }

  function Asks(act: Act): seq<Task> {
    match act case Want(t) => [t] case WantAll(ts) => ts case _ => []
  }

  lemma DeliveryKeeps(w: Setting, n: Net, act: Act, wanted: seq<Task>, done: seq<Task>, phase: Phase)
    returns (after: seq<Task>, next: Phase)
    requires w.ha.digest == w.hb.digest
    requires Inv(w, n, wanted, done, phase) && Enabled(n, act) && (act.ToA? || act.ToB?)
    ensures Inv(w, Move(w, n, act), wanted, after, next)
  {
    hide Sending, Move;
    var t := if phase == Idle then Task("", "", "") else wanted[|done|];
    after, next := done, phase;
    match phase
    case Idle =>
      assert false;
    case Asked =>
      next := AskedKeeps(w, n, done, t);
      QueueStays(w, n, t, act);
    case Refused =>
      after, next := AnsweredKeeps(w, n, done, t, phase);
    case Accepted =>
      AcceptedKeeps(w, n, done, t);
      next := Streaming(0);
    case Streaming(k) =>
      StreamingBound(w, n, done, t, k);
      if k < |Cut(w.fa[t.path])| {
        StreamingKeeps(w, n, done, t, k);
        next := Streaming(k + 1);
      } else {
        CheckSucceeds(w, n, done, t);
        next := Confirmed;
      }
      QueueStays(w, n, t, act);
    case Confirmed =>
      after, next := AnsweredKeeps(w, n, done, t, phase);
  }

  lemma StreamingBound(w: Setting, n: Net, done: seq<Task>, t: Task, k: nat)
    requires Sending(w, n, done, t, Streaming(k))
    ensures t.path in w.fa && k <= |Cut(w.fa[t.path])|
  {
  }

  lemma QueueStays(w: Setting, n: Net, t: Task, act: Act)
    requires act.ToB? ==> Enabled(n, act)
    ensures act.ToB? ==> Move(w, n, act).a == n.a
  {
  }

  lemma MoveKeeps(w: Setting, n: Net, act: Act, wanted: seq<Task>, done: seq<Task>, phase: Phase)
    returns (after: seq<Task>, next: Phase)
    requires w.ha.digest == w.hb.digest
    requires Inv(w, n, wanted, done, phase) && Enabled(n, act)
    ensures Inv(w, Move(w, n, act), wanted + Asks(act), after, next)
  {
    match act
    case Want(t) =>
      OneIsMany(n.a, t);
      after, next := WantKeeps(w, n, [t], wanted, done, phase);
    case WantAll(ts) =>
      after, next := WantKeeps(w, n, ts, wanted, done, phase);
    case _ =>
      assert wanted + [] == wanted;
      after, next := DeliveryKeeps(w, n, act, wanted, done, phase);
  }

  // ---- whole runs -------------------------------------------------------------------

  function Run(w: Setting, acts: seq<Act>): Net
    requires Legal(w, acts)
    decreases |acts|, 2
  {
    if acts == [] then Net(New(w.fa), New(w.fb), 0, 0)
    else Move(w, Run(w, acts[..|acts| - 1]), acts[|acts| - 1])
  }

  /** Nothing is handled before it is sent. */
  predicate Legal(w: Setting, acts: seq<Act>)
    decreases |acts|, 0
  {
    acts == [] ||
    (Legal(w, acts[..|acts| - 1]) && Enabled(Run(w, acts[..|acts| - 1]), acts[|acts| - 1]))
  }

  function AskedFor(acts: seq<Act>): seq<Task> {
    if acts == [] then [] else AskedFor(acts[..|acts| - 1]) + Asks(acts[|acts| - 1])
  }

  lemma {:induction false} RunKeeps(w: Setting, acts: seq<Act>) returns (done: seq<Task>, phase: Phase)
    requires w.ha.digest == w.hb.digest && Legal(w, acts)
    ensures Inv(w, Run(w, acts), AskedFor(acts), done, phase)
    decreases |acts|
  {
    if acts == [] {
      done, phase := [], Idle;
    } else {
      var n := |acts| - 1;
      done, phase := RunKeeps(w, acts[..n]);
      done, phase := MoveKeeps(w, Run(w, acts[..n]), acts[n], AskedFor(acts[..n]), done, phase);
    }
  }

  /** Over every run the sender is busy exactly while something is under way, and otherwise
      every file asked for has been dealt with: the receiver's disk and its reports are those
      of sending them one after the other, and neither side is left busy. */
  lemma EveryFileArrives(w: Setting, acts: seq<Act>)
    requires w.ha.digest == w.hb.digest && Legal(w, acts)
    ensures Run(w, acts).a.busy <==> !Quiet(Run(w, acts))
    ensures Quiet(Run(w, acts)) ==> !Run(w, acts).b.busy && Run(w, acts).a.queue == []
    ensures Quiet(Run(w, acts)) ==> Run(w, acts).b.files == Stored(w, AskedFor(acts))
    ensures Quiet(Run(w, acts)) ==> Run(w, acts).b.received == Receipts(w, AskedFor(acts))
  {
    var done, phase := RunKeeps(w, acts);
    var n := Run(w, acts);
    if phase != Idle {
      InFlight(w, n, done, AskedFor(acts)[|done|], phase);
    }
  }

  /** A run ends: the number of deliveries is at most what the files asked for take, and is
      exactly that once nothing is under way. */
  lemma DeliveriesAreCounted(w: Setting, acts: seq<Act>)
    requires w.ha.digest == w.hb.digest && Legal(w, acts)
    ensures var n := Run(w, acts);
            && n.seenByA + n.seenByB <= Costs(w, AskedFor(acts))
            && (Quiet(n) <==> n.seenByA + n.seenByB == Costs(w, AskedFor(acts)))
  {
    var done, phase := RunKeeps(w, acts);
    var n := Run(w, acts);
    if phase != Idle {
      var t := AskedFor(acts)[|done|];
      InFlight(w, n, done, t, phase);
      StepsBelowCost(w, n, done, t, phase);
      StoredAfter(w, done, t);
      CostsOfTwo(w, done + [t], n.a.queue);
    }
  }

  lemma StepsBelowCost(w: Setting, n: Net, done: seq<Task>, t: Task, phase: Phase)
    requires Sending(w, n, done, t, phase)
    ensures Steps(w, t, phase) < Cost(w, t)
    ensures n.seenByA + n.seenByB == Costs(w, done) + Steps(w, t, phase)
  {
  }

  lemma {:induction false} CostsOfTwo(w: Setting, a: seq<Task>, b: seq<Task>)
    ensures Costs(w, a + b) == Costs(w, a) + Costs(w, b)
    decreases |b|
  {
    if b == [] {
      assert a + b == a;
    } else {
      var n := |b| - 1;
      assert (a + b)[..|a + b| - 1] == a + b[..n];
      CostsOfTwo(w, a, b[..n]);
    }
  }

  lemma InFlight(w: Setting, n: Net, done: seq<Task>, t: Task, phase: Phase)
    requires Sending(w, n, done, t, phase)
    ensures n.a.busy && !Quiet(n)
  {
    assert InFlightToB(n) != [] || InFlightToA(n) != [];
  }

  /** A file that is not overwritten by a later one is on the receiver's disk byte for byte. */
  lemma {:induction false} FileIsThere(w: Setting, ts: seq<Task>, i: nat)
    requires i < |ts| && Storable(w, ts[i])
    requires forall j :: i < j < |ts| && Storable(w, ts[j]) ==> Place(w, ts[j]) != Place(w, ts[i])
    ensures Place(w, ts[i]) in Stored(w, ts) && Stored(w, ts)[Place(w, ts[i])] == w.fa[ts[i].path]
    decreases |ts|
  {
    var n := |ts| - 1;
    if i < n {
      assert forall j :: 0 <= j < n ==> ts[..n][j] == ts[j];
      FileIsThere(w, ts[..n], i);
    }
  }

  /** Files nobody sent are as they were. */
  lemma {:induction false} OtherFilesStay(w: Setting, ts: seq<Task>, path: string)
    requires forall i :: 0 <= i < |ts| && Storable(w, ts[i]) ==> Place(w, ts[i]) != path
    ensures (path in Stored(w, ts) <==> path in w.fb) && (path in w.fb ==> Stored(w, ts)[path] == w.fb[path])
    decreases |ts|
  {
    if ts != [] {
      var n := |ts| - 1;
      assert forall i :: 0 <= i < n ==> ts[..n][i] == ts[i];
      OtherFilesStay(w, ts[..n], path);
    }
  }
}
