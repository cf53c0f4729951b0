/** The two sockets of module Transfers joined by bytes: whatever pieces the network delivers,
    the files arrive. */
module Wires {
  import opened Messages
  import opened Framing
  import opened MessageIds
  import opened FileTransfer
  import opened Transfers
  import opened Delivery

  datatype Codec = Codec(printer: Printer, parse: Parser)

  datatype ByteNet = ByteNet(a: Endpoint, b: Endpoint, toB: Link, toA: Link)

  datatype ByteAct = AskOne(task: Task) | AskMany(tasks: seq<Task>) | CarryToB(n: nat) | CarryToA(n: nat)

  function HandleAll(h: Host, e: Endpoint, ps: seq<Parcel>): Endpoint
    decreases |ps|
  {
    if ps == [] then e else HandleAll(h, Handle(h, e, ps[0]), ps[1..])
  }

  /** What a side has sent meanwhile. */
  function News(before: Endpoint, after: Endpoint): seq<Parcel> {
    if |before.sent| <= |after.sent| then after.sent[|before.sent|..] else []
  }

  predicate Possible(m: ByteNet, act: ByteAct) {
    && (act.CarryToB? ==> act.n <= |m.toB.wire| && Sound(m.toB.reader))
    && (act.CarryToA? ==> act.n <= |m.toA.wire| && Sound(m.toA.reader))
  }

  function ByteMove(c: Codec, w: Setting, m: ByteNet, act: ByteAct): ByteNet
    requires Possible(m, act)
  {
    match act
    case AskOne(t) =>
      var a := Prepare(m.a, t);
      m.(a := a, toB := Send(c.printer, m.toB, News(m.a, a)))
    case AskMany(ts) =>
      var a := PrepareAll(m.a, ts);
      m.(a := a, toB := Send(c.printer, m.toB, News(m.a, a)))
    case CarryToB(n) =>
      var l := Carry(c.parse, m.toB, n);
      var b := HandleAll(w.hb, m.b, Contents(c.parse, NewBlocks(m.toB.reader, l.reader)));
      m.(b := b, toB := l, toA := Send(c.printer, m.toA, News(m.b, b)))
    case CarryToA(n) =>
      var l := Carry(c.parse, m.toA, n);
      var a := HandleAll(w.ha, m.a, Contents(c.parse, NewBlocks(m.toA.reader, l.reader)));
      m.(a := a, toA := l, toB := Send(c.printer, m.toB, News(m.a, a)))
  }

  // ---- the bytes refine the parcels ---------------------------------------------------

  ghost predicate Refines(c: Codec, m: ByteNet, n: Net, tailToB: seq<Byte>, tailToA: seq<Byte>) {
    && m.a == n.a && m.b == n.b
    && Carries(c.printer, m.toB, n.a.sent, n.seenByB, tailToB)
    && Carries(c.printer, m.toA, n.b.sent, n.seenByA, tailToA)
  }

  /** The announcement of a file fits into a block. */
  ghost predicate Announceable(c: Codec, w: Setting, t: Task) {
    t.path in w.fa ==> Fits(c.printer, Text(RequestFor(w.fa, t)))
  }

  ghost predicate AllAnnounceable(c: Codec, w: Setting, ts: seq<Task>) {
    forall i :: 0 <= i < |ts| ==> Announceable(c, w, ts[i])
  }

  /** So do the other messages of the protocol, which are short. */
  ghost predicate Roomy(c: Codec, w: Setting) {
    && Fits(c.printer, Text(FileAnswer(0))) && Fits(c.printer, Text(FileAnswer(1)))
    && Fits(c.printer, Text(CheckAnswer(0))) && Fits(c.printer, Text(CheckAnswer(1)))
    && forall path :: path in w.fa ==> Fits(c.printer, Text(CheckRequest(w.ha.digest(w.fa[path]))))
  }

  lemma PiecesFit(c: Codec, chunks: seq<Piece>)
    ensures AllFit(c.printer, Binaries(chunks))
  {
    forall i | 0 <= i < |chunks| ensures Fits(c.printer, Binaries(chunks)[i]) {
      assert Binaries(chunks)[i] == Binary(chunks[i]);
    }
  }

  lemma InFlightFits(c: Codec, w: Setting, n: Net, wanted: seq<Task>, done: seq<Task>, phase: Phase)
    requires Roomy(c, w) && AllAnnounceable(c, w, wanted) && Inv(w, n, wanted, done, phase)
    ensures n.seenByB <= |n.a.sent| && AllFit(c.printer, InFlightToB(n))
    ensures n.seenByA <= |n.b.sent| && AllFit(c.printer, InFlightToA(n))
  {
    hide Fits;
    if phase == Idle {
      assert InFlightToB(n) == [] && InFlightToA(n) == [];
    } else {
      var t := wanted[|done|];
      assert Announceable(c, w, t);
      PiecesFit(c, Cut(w.fa[t.path]));
    }
  }

  lemma HandleExtends(h: Host, e: Endpoint, p: Parcel)
    ensures e.sent <= Handle(h, e, p).sent
  {
  }

  lemma MoveExtends(w: Setting, n: Net, act: Act)
    requires Enabled(n, act)
    ensures n.a.sent <= Move(w, n, act).a.sent && n.b.sent <= Move(w, n, act).b.sent
    ensures act.ToB? ==> Move(w, n, act).a == n.a
    ensures act.ToA? ==> Move(w, n, act).b == n.b
    ensures !act.ToB? ==> Move(w, n, act).seenByB == n.seenByB
    ensures !act.ToA? ==> Move(w, n, act).seenByA == n.seenByA
    ensures act.Want? || act.WantAll? ==> Move(w, n, act).b == n.b
  {
    match act
    case ToB => HandleExtends(w.hb, n.b, n.a.sent[n.seenByB]);
    case ToA => HandleExtends(w.ha, n.a, n.b.sent[n.seenByA]);
    case _ =>
  }

  lemma FitsStays(c: Codec, before: seq<Parcel>, after: seq<Parcel>, seen: nat)
    requires AllFit(c.printer, before) && before <= after && seen <= |before| && AllFit(c.printer, after[seen..])
    ensures AllFit(c.printer, after)
  {
    forall i | 0 <= i < |after| ensures Fits(c.printer, after[i]) {
      if i < |before| {
        assert after[i] == before[i];
      } else {
        assert after[i] == after[seen..][i - seen];
      }
    }
  }

  /** The state of a system of parcels in which everything sent fits. */
  ghost predicate Fine(c: Codec, w: Setting, n: Net, wanted: seq<Task>, done: seq<Task>, phase: Phase) {
    && w.ha.digest == w.hb.digest && Roomy(c, w) && AllAnnounceable(c, w, wanted)
    && Inv(w, n, wanted, done, phase) && AllFit(c.printer, n.a.sent) && AllFit(c.printer, n.b.sent)
  }

  lemma InBounds(w: Setting, n: Net, wanted: seq<Task>, done: seq<Task>, phase: Phase)
    requires Inv(w, n, wanted, done, phase)
    ensures n.seenByB <= |n.a.sent| && n.seenByA <= |n.b.sent|
  {
  }

  lemma MoveFine(c: Codec, w: Setting, n: Net, act: Act, wanted: seq<Task>, done: seq<Task>, phase: Phase)
    returns (after: seq<Task>, next: Phase)
    requires Fine(c, w, n, wanted, done, phase) && Enabled(n, act) && AllAnnounceable(c, w, wanted + Asks(act))
    ensures Fine(c, w, Move(w, n, act), wanted + Asks(act), after, next)
  {
    hide Inv, Move, AllAnnounceable, Roomy, Fits, AllFit;
    var m := Move(w, n, act);
    InBounds(w, n, wanted, done, phase);
    after, next := MoveKeeps(w, n, act, wanted, done, phase);
    InFlightFits(c, w, m, wanted + Asks(act), after, next);
    MoveExtends(w, n, act);
    SeenMoves(w, n, act);
    FitsStays(c, n.a.sent, m.a.sent, m.seenByB);
    FitsStays(c, n.b.sent, m.b.sent, m.seenByA);
  }

  lemma SeenMoves(w: Setting, n: Net, act: Act)
    requires Enabled(n, act) && n.seenByB <= |n.a.sent| && n.seenByA <= |n.b.sent|
    ensures Move(w, n, act).seenByB <= |n.a.sent| && Move(w, n, act).seenByA <= |n.b.sent|
  {
  }

  lemma {:induction false} ManyToB(c: Codec, w: Setting, n: Net, k: nat,
                                   wanted: seq<Task>, done: seq<Task>, phase: Phase)
    returns (m: Net, after: seq<Task>, next: Phase)
    requires Fine(c, w, n, wanted, done, phase) && n.seenByB + k <= |n.a.sent|
    ensures m == n.(b := HandleAll(w.hb, n.b, n.a.sent[n.seenByB..n.seenByB + k]), seenByB := n.seenByB + k)
    ensures Fine(c, w, m, wanted, after, next) && n.b.sent <= m.b.sent
    decreases k
  {
    hide Fine, Handle;
    if k == 0 {
      m, after, next := n, done, phase;
    } else {
      assert AllAnnounceable(c, w, wanted) by { FineMeans(c, w, n, wanted, done, phase); }
      assert wanted + Asks(ToB) == wanted;
      after, next := MoveFine(c, w, n, ToB, wanted, done, phase);
      MoveExtends(w, n, ToB);
      var ps := n.a.sent[n.seenByB..n.seenByB + k];
      assert ps[1..] == n.a.sent[n.seenByB + 1..n.seenByB + k] && ps[0] == n.a.sent[n.seenByB];
      m, after, next := ManyToB(c, w, Move(w, n, ToB), k - 1, wanted, after, next);
    }
  }

  lemma {:induction false} ManyToA(c: Codec, w: Setting, n: Net, k: nat,
                                   wanted: seq<Task>, done: seq<Task>, phase: Phase)
    returns (m: Net, after: seq<Task>, next: Phase)
    requires Fine(c, w, n, wanted, done, phase) && n.seenByA + k <= |n.b.sent|
    ensures m == n.(a := HandleAll(w.ha, n.a, n.b.sent[n.seenByA..n.seenByA + k]), seenByA := n.seenByA + k)
    ensures Fine(c, w, m, wanted, after, next) && n.a.sent <= m.a.sent
    decreases k
  {
    hide Fine, Handle;
    if k == 0 {
      m, after, next := n, done, phase;
    } else {
      assert AllAnnounceable(c, w, wanted) by { FineMeans(c, w, n, wanted, done, phase); }
      assert wanted + Asks(ToA) == wanted;
      after, next := MoveFine(c, w, n, ToA, wanted, done, phase);
      MoveExtends(w, n, ToA);
      var ps := n.b.sent[n.seenByA..n.seenByA + k];
      assert ps[1..] == n.b.sent[n.seenByA + 1..n.seenByA + k] && ps[0] == n.b.sent[n.seenByA];
      m, after, next := ManyToA(c, w, Move(w, n, ToA), k - 1, wanted, after, next);
    }
  }

  lemma FineMeans(c: Codec, w: Setting, n: Net, wanted: seq<Task>, done: seq<Task>, phase: Phase)
    requires Fine(c, w, n, wanted, done, phase)
    ensures AllAnnounceable(c, w, wanted) && AllFit(c.printer, n.a.sent) && AllFit(c.printer, n.b.sent)
    ensures n.seenByB <= |n.a.sent| && n.seenByA <= |n.b.sent|
  {
  }

  /** The parcels a system of bytes stands for, and where its transfer is. */
  datatype Shadow = Shadow(net: Net, done: seq<Task>, phase: Phase, tailToB: seq<Byte>, tailToA: seq<Byte>)

  ghost predicate Mirrors(c: Codec, w: Setting, m: ByteNet, wanted: seq<Task>, x: Shadow) {
    && Faithful(c.printer, c.parse)
    && Fine(c, w, x.net, wanted, x.done, x.phase) && Refines(c, m, x.net, x.tailToB, x.tailToA)
  }

  function ByteAsks(act: ByteAct): seq<Task> {
    match act case AskOne(t) => [t] case AskMany(ts) => ts case _ => []
  }

  lemma AskMirrors(c: Codec, w: Setting, m: ByteNet, act: ByteAct, wanted: seq<Task>, x: Shadow) returns (y: Shadow)
    requires Mirrors(c, w, m, wanted, x) && (act.AskOne? || act.AskMany?)
    requires AllAnnounceable(c, w, wanted + ByteAsks(act))
    ensures Mirrors(c, w, ByteMove(c, w, m, act), wanted + ByteAsks(act), y)
  {
    hide Fine, Carries, Prepare, PrepareAll, Send, AllAnnounceable, Faithful, AllFit;
    var move := if act.AskOne? then Want(act.task) else WantAll(act.tasks);
    var n := x.net;
    var after, phase := MoveFine(c, w, n, move, wanted, x.done, x.phase);
    var o := Move(w, n, move);
    MoveExtends(w, n, move);
    FineMeans(c, w, o, wanted + Asks(move), after, phase);
    NewsFit(c, n.a, o.a);
    SendCarries(c.printer, m.toB, n.a.sent, n.seenByB, x.tailToB, News(n.a, o.a));
    y := Shadow(o, after, phase, x.tailToB, x.tailToA);
  }

  lemma NewsFit(c: Codec, before: Endpoint, after: Endpoint)
    requires before.sent <= after.sent && AllFit(c.printer, after.sent)
    ensures AllFit(c.printer, News(before, after)) && before.sent + News(before, after) == after.sent
  {
    hide Fits;
    forall i | 0 <= i < |News(before, after)| ensures Fits(c.printer, News(before, after)[i]) {
      assert News(before, after)[i] == after.sent[|before.sent| + i];
    }
  }

  lemma CarryToBMirrors(c: Codec, w: Setting, m: ByteNet, n: nat, wanted: seq<Task>, x: Shadow) returns (y: Shadow)
    requires Mirrors(c, w, m, wanted, x) && Possible(m, CarryToB(n))
    ensures Mirrors(c, w, ByteMove(c, w, m, CarryToB(n)), wanted, y)
  {
    hide Fine, Carries, Send, AllFit, HandleAll, Carry, Contents, NewBlocks, Faithful;
    var p := x.net;
    FineMeans(c, w, p, wanted, x.done, x.phase);
    var k, tail := CarryDelivers(c.printer, c.parse, m.toB, p.a.sent, p.seenByB, x.tailToB, n);
    var o, after, phase := ManyToB(c, w, p, k, wanted, x.done, x.phase);
    FineMeans(c, w, o, wanted, after, phase);
    NewsFit(c, p.b, o.b);
    SendCarries(c.printer, m.toA, p.b.sent, p.seenByA, x.tailToA, News(p.b, o.b));
    y := Shadow(o, after, phase, tail, x.tailToA);
  }

  lemma CarryToAMirrors(c: Codec, w: Setting, m: ByteNet, n: nat, wanted: seq<Task>, x: Shadow) returns (y: Shadow)
    requires Mirrors(c, w, m, wanted, x) && Possible(m, CarryToA(n))
    ensures Mirrors(c, w, ByteMove(c, w, m, CarryToA(n)), wanted, y)
  {
    hide Fine, Carries, Send, AllFit, HandleAll, Carry, Contents, NewBlocks, Faithful;
    var p := x.net;
    FineMeans(c, w, p, wanted, x.done, x.phase);
    var k, tail := CarryDelivers(c.printer, c.parse, m.toA, p.b.sent, p.seenByA, x.tailToA, n);
    var o, after, phase := ManyToA(c, w, p, k, wanted, x.done, x.phase);
    FineMeans(c, w, o, wanted, after, phase);
    NewsFit(c, p.a, o.a);
    SendCarries(c.printer, m.toB, p.a.sent, p.seenByB, x.tailToB, News(p.a, o.a));
    y := Shadow(o, after, phase, x.tailToB, tail);
  }

  // ---- whole runs -------------------------------------------------------------------

  function ByteRun(c: Codec, w: Setting, acts: seq<ByteAct>): ByteNet
    requires ByteLegal(c, w, acts)
    decreases |acts|, 1
  {
    if acts == [] then ByteNet(New(w.fa), New(w.fb), FreshLink, FreshLink)
    else ByteMove(c, w, ByteRun(c, w, acts[..|acts| - 1]), acts[|acts| - 1])
  }

  /** No byte arrives before it is sent. */
  predicate ByteLegal(c: Codec, w: Setting, acts: seq<ByteAct>)
    decreases |acts|, 0
  {
    acts == [] ||
    (ByteLegal(c, w, acts[..|acts| - 1]) && Possible(ByteRun(c, w, acts[..|acts| - 1]), acts[|acts| - 1]))
  }

  function ByteAskedFor(acts: seq<ByteAct>): seq<Task> {
    if acts == [] then [] else ByteAskedFor(acts[..|acts| - 1]) + ByteAsks(acts[|acts| - 1])
  }

  lemma FreshMirrors(c: Codec, w: Setting) returns (x: Shadow)
    requires Faithful(c.printer, c.parse) && w.ha.digest == w.hb.digest && Roomy(c, w)
    ensures Mirrors(c, w, ByteNet(New(w.fa), New(w.fb), FreshLink, FreshLink), [], x)
  {
    hide Faithful, Roomy;
    x := Shadow(Net(New(w.fa), New(w.fb), 0, 0), [], Idle, [], []);
  }

  lemma {:induction false} ByteRunMirrors(c: Codec, w: Setting, acts: seq<ByteAct>) returns (x: Shadow)
    requires Faithful(c.printer, c.parse) && w.ha.digest == w.hb.digest && Roomy(c, w)
    requires ByteLegal(c, w, acts) && AllAnnounceable(c, w, ByteAskedFor(acts))
    ensures Mirrors(c, w, ByteRun(c, w, acts), ByteAskedFor(acts), x)
    decreases |acts|
  {
    hide Mirrors, Faithful, Roomy, ByteMove, Announceable;
    if acts == [] {
      x := FreshMirrors(c, w);
    } else {
      var i := |acts| - 1;
      var before, wanted := acts[..i], ByteAskedFor(acts[..i]);
      assert forall j :: 0 <= j < |wanted| ==> wanted[j] == ByteAskedFor(acts)[j];
      x := ByteRunMirrors(c, w, before);
      var m := ByteRun(c, w, before);
      match acts[i]
      case CarryToB(n) =>
        assert wanted + [] == wanted;
        x := CarryToBMirrors(c, w, m, n, wanted, x);
      case CarryToA(n) =>
        assert wanted + [] == wanted;
        x := CarryToAMirrors(c, w, m, n, wanted, x);
      case _ =>
        x := AskMirrors(c, w, m, acts[i], wanted, x);
    }
  }

  /** Nothing is on the wire exactly if everything sent has been handled. */
  lemma WireEmptyIff(printer: Printer, l: Link, sent: seq<Parcel>, seen: nat, tail: seq<Byte>)
    requires Carries(printer, l, sent, seen, tail) && AllFit(printer, sent)
    ensures l.wire == [] <==> seen == |sent|
  {
    var at, rest := CounterAfter(0, sent[..seen]), sent[seen..];
    if rest != [] {
      var id := IdFor(at, rest[0]);
      CounterStays(0, sent[..seen]);
      assert Fits(printer, sent[seen]) && rest[0] == sent[seen];
      assert Blocks(printer, at, rest)[0] == Block(printer, id, rest[0]);
      assert |Wire(Blocks(printer, at, rest))| >= |Frame(Block(printer, id, rest[0]))| > |tail|;
    }
  }

  /** Over every run, in whatever pieces the bytes arrive: the sender is busy exactly while
      there is something on the wires, and when there is nothing, every file asked for is on
      the receiver's disk, its sum agreed, and both sides are free again. */
  lemma EveryByteArrives(c: Codec, w: Setting, acts: seq<ByteAct>)
    requires Faithful(c.printer, c.parse) && w.ha.digest == w.hb.digest && Roomy(c, w)
    requires ByteLegal(c, w, acts) && AllAnnounceable(c, w, ByteAskedFor(acts))
    ensures var m, wanted := ByteRun(c, w, acts), ByteAskedFor(acts);
            var silent := m.toB.wire == [] && m.toA.wire == [];
            && (m.a.busy <==> !silent)
            && (silent ==> !m.b.busy && m.a.queue == [] &&
                           m.b.files == Stored(w, wanted) && m.b.received == Receipts(w, wanted))
  {
    hide ByteRun, Carries, AllFit, Roomy, Faithful, AllAnnounceable;
    var m, wanted := ByteRun(c, w, acts), ByteAskedFor(acts);
    var x := ByteRunMirrors(c, w, acts);
    WireEmptyIff(c.printer, m.toB, x.net.a.sent, x.net.seenByB, x.tailToB);
    WireEmptyIff(c.printer, m.toA, x.net.b.sent, x.net.seenByA, x.tailToA);
    if x.phase != Idle {
      InFlight(w, x.net, x.done, wanted[|x.done|], x.phase);
    }
  }

  // ---- an announcement that is too long -----------------------------------------------

  /** Nobody will ever send anything again, and the sender takes itself to be busy. */
  predicate Stuck(m: ByteNet) {
    && m.a.busy && m.toB.wire == [] && m.toA.wire == []
    && Waiting(m.toB.reader) && Waiting(m.toA.reader)
  }

  /** A free sender that announces a file gets stuck exactly if the announcement is too long
      for a block: it is dropped with a log entry, but the socket stays busy. */
  lemma StuckIffTooLong(c: Codec, w: Setting, m: ByteNet, t: Task)
    requires !m.a.busy && m.toB.wire == [] && m.toA.wire == [] && t.path in m.a.files
    requires Waiting(m.toB.reader) && Waiting(m.toA.reader)
    ensures Stuck(ByteMove(c, w, m, AskOne(t)))
       <==> |Block(c.printer, NextId(m.toB.counter), Text(RequestFor(m.a.files, t)))| > MAX_BLOCK
  {
    var p := Text(RequestFor(m.a.files, t));
    var id := NextId(m.toB.counter);
    var a := Prepare(m.a, t);
    assert News(m.a, a) == [p];
    assert Blocks(c.printer, m.toB.counter, [p]) == BlockIfSent(c.printer, id, p) + Blocks(c.printer, id, []);
    var b := Block(c.printer, id, p);
    if |b| <= MAX_BLOCK {
      assert Sendables([b]) && [b][0] == b;
      assert |Wire([b])| >= |Frame(b)| > 0;
    }
  }

  lemma IdleReader(parse: Parser, l: Link)
    requires l.wire == [] && Waiting(l.reader) && Sound(l.reader)
    ensures Carry(parse, l, 0) == l
  {
    assert l.wire[..0] == [] && l.wire[0..] == [];
    assert Arrive(l.reader, []) == l.reader;
    assert l.reader.got + [] == l.reader.got;
  }

  /** Whatever is asked or carried later, it stays stuck and sends nothing. */
  lemma StuckStays(c: Codec, w: Setting, m: ByteNet, act: ByteAct)
    requires Stuck(m) && Possible(m, act)
    ensures Stuck(ByteMove(c, w, m, act)) && ByteMove(c, w, m, act).a.sent == m.a.sent
  {
    assert News(m.a, m.a) == [] && News(m.b, m.b) == [];
    match act
    case CarryToB(n) =>
      IdleReader(c.parse, m.toB);
      assert NewBlocks(m.toB.reader, m.toB.reader) == [];
    case CarryToA(n) =>
      IdleReader(c.parse, m.toA);
      assert NewBlocks(m.toA.reader, m.toA.reader) == [];
    case _ =>
  }
}
