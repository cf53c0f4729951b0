/** The file transfer over the wire: parcels numbered, framed and cut into deliveries in any
    way.  The bytes do what the parcels of module Transfers do. */
module Delivery {
  import opened Wrappers
  import opened Messages
  import opened Framing
  import opened MessageIds
  import opened FileTransfer

  // ---- parcels and blocks -----------------------------------------------------------

  /** protocol_send_msg_id after a parcel: only messages are numbered. */
  function IdFor(counter: int, p: Parcel): int {
    if p.Text? then NextId(counter) else counter
  }

  function Block(printer: Printer, id: int, p: Parcel): (b: seq<Byte>)
    ensures |b| >= 1
  {
    match p
    case Text(m) => [TYPE_PROTOCOL] + printer(Packet(id, m))
    case Binary(bytes) => [TYPE_BINARY] + bytes
  }

  /** A parcel on the wire: the size of the block in four digits, the letter S and the text of a
      message with its id, or the letter B and file data. */
  lemma ParcelOnWire(printer: Printer, id: int, p: Parcel)
    requires |Block(printer, id, p)| <= MAX_BLOCK
    ensures var f, data := Frame(Block(printer, id, p)),
                           match p case Text(m) => printer(Packet(id, m)) case Binary(bytes) => bytes;
            && f == f[..4] + [if p.Text? then 'S' as int as Byte else 'B' as int as Byte] + data
            && AreDigits(f[..4]) && Spelled(f[..4]) == 1 + |data|
  {
    var b := Block(printer, id, p);
    HeaderSpells(|b|);
    assert Frame(b)[..4] == Header(|b|);
  }

  /** The block of one parcel; a message that is too long is not sent but has used its id. */
  function BlockIfSent(printer: Printer, id: int, p: Parcel): (bs: seq<seq<Byte>>)
    ensures Sendables(bs)
  {
    var b := Block(printer, id, p);
    if |b| > MAX_BLOCK then [] else [b]
  }

  /** What is sent of a parcel: its block, unless letter and data are more than 65535 bytes; a
      message takes the next number either way. */
  lemma SentIff(printer: Printer, counter: int, p: Parcel)
    ensures var id := IdFor(counter, p);
            var data := match p case Text(m) => printer(Packet(id, m)) case Binary(bytes) => bytes;
            && Blocks(printer, counter, [p]) == (if 1 + |data| <= 65535 then [Block(printer, id, p)] else [])
            && id == if p.Binary? then counter else if counter > 32768 then 1 else counter + 1
  {
    assert [p][1..] == [];
    assert BlockIfSent(printer, IdFor(counter, p), p) + [] == BlockIfSent(printer, IdFor(counter, p), p);
  }

  function Blocks(printer: Printer, counter: int, ps: seq<Parcel>): (bs: seq<seq<Byte>>)
    ensures Sendables(bs)
    decreases |ps|
  {
    if ps == [] then []
    else
      var id := IdFor(counter, ps[0]);
      BlockIfSent(printer, id, ps[0]) + Blocks(printer, id, ps[1..])
  }

  function CounterAfter(counter: int, ps: seq<Parcel>): int
    decreases |ps|
  {
    if ps == [] then counter else CounterAfter(IdFor(counter, ps[0]), ps[1..])
  }

  /** What the receiver makes of a block. */
  function Content(parse: Parser, block: seq<Byte>): Option<Parcel> {
    if block == [] || |block| > MAX_BLOCK then None
    else if block[0] == TYPE_PROTOCOL then
      match parse(block[1..]) case Some(p) => Some(Text(p.message)) case None => None
    else if block[0] == TYPE_BINARY then Some(Binary(block[1..]))
    else None
  }

  function Contents(parse: Parser, blocks: seq<seq<Byte>>): seq<Parcel> {
    if blocks == [] then []
    else
      (match Content(parse, blocks[0]) case Some(p) => [p] case None => []) + Contents(parse, blocks[1..])
  }

  /** The parcel fits into a block whatever id it gets. */
  ghost predicate Fits(printer: Printer, p: Parcel) {
    forall id :: 1 <= id <= CYCLE ==> |Block(printer, id, p)| <= MAX_BLOCK
  }

  ghost predicate AllFit(printer: Printer, ps: seq<Parcel>) {
    forall i :: 0 <= i < |ps| ==> Fits(printer, ps[i])
  }

  lemma {:induction false} BlocksOfTwo(printer: Printer, counter: int, a: seq<Parcel>, b: seq<Parcel>)
    ensures Blocks(printer, counter, a + b) ==
      Blocks(printer, counter, a) + Blocks(printer, CounterAfter(counter, a), b)
    ensures CounterAfter(counter, a + b) == CounterAfter(CounterAfter(counter, a), b)
    decreases |a|
  {
    hide BlockIfSent, IdFor, Sendables;
    if a == [] {
      assert a + b == b;
    } else {
      var id := IdFor(counter, a[0]);
      BlocksOfTwo(printer, id, a[1..], b);
      assert (a + b)[1..] == a[1..] + b && (a + b)[0] == a[0];
      assert Blocks(printer, counter, a + b) == BlockIfSent(printer, id, a[0]) + Blocks(printer, id, a[1..] + b);
    }
  }

  lemma {:induction false} CounterStays(counter: int, ps: seq<Parcel>)
    requires 0 <= counter <= CYCLE
    ensures 0 <= CounterAfter(counter, ps) <= CYCLE
    decreases |ps|
  {
    if ps != [] { CounterStays(IdFor(counter, ps[0]), ps[1..]); }
  }

  /** Parcels that fit reach a receiver whose last id is the sender's: each block is one of
      them, none is skipped, and the ids agree again afterwards, wrapped or not. */
  lemma {:induction false} BlocksAreParcels(printer: Printer, parse: Parser, counter: int, ps: seq<Parcel>)
    requires Faithful(printer, parse) && AllFit(printer, ps) && 0 <= counter <= CYCLE
    ensures |Blocks(printer, counter, ps)| == |ps| && Contents(parse, Blocks(printer, counter, ps)) == ps
    ensures NoneSkipped(parse, Blocks(printer, counter, ps), counter)
    ensures LastId(parse, Blocks(printer, counter, ps), counter) == CounterAfter(counter, ps)
    decreases |ps|
  {
    if ps != [] {
      var p, id := ps[0], IdFor(counter, ps[0]);
      assert Fits(printer, p);
      var bs := Blocks(printer, counter, ps);
      BlocksAreParcels(printer, parse, id, ps[1..]);
      FirstBlock(printer, parse, counter, p);
      assert |Block(printer, id, p)| <= MAX_BLOCK;
      assert bs[0] == Block(printer, id, p) && bs[1..] == Blocks(printer, id, ps[1..]);
    }
  }

  lemma FirstBlock(printer: Printer, parse: Parser, counter: int, p: Parcel)
    requires Faithful(printer, parse) && Fits(printer, p) && 0 <= counter <= CYCLE
    ensures var b := Block(printer, IdFor(counter, p), p);
            |b| <= MAX_BLOCK && Content(parse, b) == Some(p) && !Skipped(parse, b, counter) &&
            IdAfter(parse, b, counter) == IdFor(counter, p)
  {
    var id := IdFor(counter, p);
    match p
    case Text(m) =>
      assert Block(printer, id, p)[1..] == printer(Packet(id, m));
    case Binary(bytes) =>
      assert Block(printer, id, p)[1..] == bytes;
  }

  // ---- one direction of a connection --------------------------------------------------

  /** The sender's id counter, the bytes on the way, and the receiver's reader. */
  datatype Link = Link(counter: int, wire: seq<Byte>, reader: Reader)

  const FreshLink := Link(0, [], Start)

  function Send(printer: Printer, l: Link, ps: seq<Parcel>): Link {
    l.(counter := CounterAfter(l.counter, ps), wire := l.wire + Wire(Blocks(printer, l.counter, ps)))
  }

  function Carry(parse: Parser, l: Link, n: nat): Link
    requires n <= |l.wire| && Sound(l.reader)
  {
    l.(wire := l.wire[n..], reader := Deliver(parse, l.reader, l.wire[..n]))
  }

  function NewBlocks(before: Reader, after: Reader): seq<seq<Byte>> {
    if |before.blocks| <= |after.blocks| then after.blocks[|before.blocks|..] else []
  }

  /** The reader has handed over the blocks of the first `seen` parcels sent and holds `tail`,
      which with the bytes on the way is the rest. */
  ghost predicate Carries(printer: Printer, l: Link, sent: seq<Parcel>, seen: nat, tail: seq<Byte>) {
    && seen <= |sent| && l.counter == CounterAfter(0, sent)
    && var at, rest := CounterAfter(0, sent[..seen]), sent[seen..];
       && tail + l.wire == Wire(Blocks(printer, at, rest))
       && (if rest == [] then tail == [] else Begins(tail, Block(printer, IdFor(at, rest[0]), rest[0])))
       && l.reader == Holding(Reader(0, [], [], at, Blocks(printer, 0, sent[..seen])), tail)
  }

  lemma Sliced<T>(sent: seq<T>, seen: nat, more: seq<T>)
    requires seen <= |sent|
    ensures sent == sent[..seen] + sent[seen..]
    ensures (sent + more)[..seen] == sent[..seen] && (sent + more)[seen..] == sent[seen..] + more
  {
  }

  lemma SentMore(printer: Printer, sent: seq<Parcel>, seen: nat, more: seq<Parcel>)
    requires seen <= |sent|
    ensures var at, rest, c := CounterAfter(0, sent[..seen]), sent[seen..], CounterAfter(0, sent);
            && (sent + more)[..seen] == sent[..seen] && (sent + more)[seen..] == rest + more
            && Blocks(printer, at, rest + more) == Blocks(printer, at, rest) + Blocks(printer, c, more)
            && CounterAfter(0, sent + more) == CounterAfter(c, more)
  {
    hide Blocks, CounterAfter;
    var at, rest := CounterAfter(0, sent[..seen]), sent[seen..];
    Sliced(sent, seen, more);
    BlocksOfTwo(printer, 0, sent, more);
    BlocksOfTwo(printer, 0, sent[..seen], rest);
    BlocksOfTwo(printer, at, rest, more);
  }

  lemma NothingBegins(printer: Printer, id: int, p: Parcel)
    requires (Fits(printer, p) && 1 <= id <= CYCLE) || p.Binary?
    ensures Begins([], Block(printer, id, p))
  {
    assert |Frame(Block(printer, id, p))| >= 4;
  }

  /** More is sent. */
  lemma SendCarries(printer: Printer, l: Link, sent: seq<Parcel>, seen: nat, tail: seq<Byte>, more: seq<Parcel>)
    requires Carries(printer, l, sent, seen, tail) && AllFit(printer, more)
    ensures Carries(printer, Send(printer, l, more), sent + more, seen, tail)
  {
    hide Blocks, CounterAfter, Wire, Holding, Begins, Block;
    var at, rest := CounterAfter(0, sent[..seen]), sent[seen..];
    SentMore(printer, sent, seen, more);
    var first, second := Blocks(printer, at, rest), Blocks(printer, l.counter, more);
    WireOfTwo(first, second);
    assert (tail + l.wire) + Wire(second) == tail + (l.wire + Wire(second));
    if rest != [] {
      assert (rest + more)[0] == rest[0];
    } else if more != [] {
      assert (rest + more)[0] == more[0];
      CounterStays(0, sent[..seen]);
      assert Fits(printer, more[0]);
      NothingBegins(printer, IdFor(at, more[0]), more[0]);
    }
  }

  lemma FirstOfBlocks(printer: Printer, counter: int, ps: seq<Parcel>)
    requires ps != [] && |Block(printer, IdFor(counter, ps[0]), ps[0])| <= MAX_BLOCK
    ensures Blocks(printer, counter, ps) != []
    ensures Blocks(printer, counter, ps)[0] == Block(printer, IdFor(counter, ps[0]), ps[0])
  {
  }

  /** The first `k` of the parcels not yet handled, and the rest. */
  lemma SentSplit(printer: Printer, parse: Parser, sent: seq<Parcel>, seen: nat, k: nat)
    requires Faithful(printer, parse) && AllFit(printer, sent) && seen + k <= |sent|
    ensures var at, rest := CounterAfter(0, sent[..seen]), sent[seen..];
            var bs, next := Blocks(printer, at, rest), CounterAfter(0, sent[..seen + k]);
            && |bs| == |rest| && Contents(parse, bs[..k]) == sent[seen..seen + k]
            && bs[k..] == Blocks(printer, next, sent[seen + k..])
            && Blocks(printer, 0, sent[..seen]) + bs[..k] == Blocks(printer, 0, sent[..seen + k])
            && NoneSkipped(parse, bs[..k], at) && LastId(parse, bs[..k], at) == next
            && (k < |rest| ==> bs[k] == Block(printer, IdFor(next, sent[seen + k]), sent[seen + k]))
  {
    hide NoneSkipped, LastId, Contents, Blocks, CounterAfter, Block;
    var at, rest := CounterAfter(0, sent[..seen]), sent[seen..];
    var bs, next := Blocks(printer, at, rest), CounterAfter(0, sent[..seen + k]);
    var now, later := sent[seen..seen + k], sent[seen + k..];
    assert rest == now + later && sent[..seen + k] == sent[..seen] + now;
    CounterStays(0, sent[..seen]);
    CounterStays(0, sent[..seen + k]);
    BlocksAreParcels(printer, parse, at, rest);
    BlocksAreParcels(printer, parse, at, now);
    BlocksOfTwo(printer, at, now, later);
    BlocksOfTwo(printer, 0, sent[..seen], now);
    assert bs[..k] == Blocks(printer, at, now) && bs[k..] == Blocks(printer, next, later);
    if k < |rest| {
      FirstBlock(printer, parse, next, sent[seen + k]);
      FirstOfBlocks(printer, next, later);
      assert later[0] == sent[seen + k] && bs[k] == bs[k..][0];
    }
  }

  /** What the reader holds it has read from what was at its hands. */
  lemma HoldsTail(printer: Printer, parse: Parser, l: Link, sent: seq<Parcel>, seen: nat, tail: seq<Byte>)
    requires Carries(printer, l, sent, seen, tail)
    ensures Sound(l.reader)
    ensures l.reader ==
      Deliver(parse, Reader(0, [], [], CounterAfter(0, sent[..seen]), Blocks(printer, 0, sent[..seen])), tail)
  {
    hide Blocks, CounterAfter, Read, Block;
    var at, rest := CounterAfter(0, sent[..seen]), sent[seen..];
    var r := Reader(0, [], [], at, Blocks(printer, 0, sent[..seen]));
    var next := if rest == [] then [TYPE_BINARY] else Block(printer, IdFor(at, rest[0]), rest[0]);
    if rest == [] { assert |Frame(next)| >= 4; }
    ReadBeginning(parse, r, tail, next);
  }

  lemma DeliveredInTwo(parse: Parser, r: Reader, first: seq<Byte>, second: seq<Byte>,
                       blocks: seq<seq<Byte>>, tail: seq<Byte>, next: seq<Byte>)
    requires AtRest(r) && Sendables(blocks) && Begins(tail, next) && NoneSkipped(parse, blocks, r.lastId)
    requires first + second == Wire(blocks) + tail
    ensures Sound(Deliver(parse, r, first))
    ensures Deliver(parse, Deliver(parse, r, first), second)
         == Holding(r.(blocks := r.blocks + blocks, lastId := LastId(parse, blocks, r.lastId)), tail)
  {
    hide Wire, NoneSkipped, LastId, Read, Holding, Begins;
    var chunks := [first, second];
    assert chunks[0] == first && chunks[1..] == [second] && [second][1..] == [];
    assert Flat([second]) == second + Flat([]);
    assert Flat(chunks) == first + Flat([second]);
    FramesSurviveDelivery(parse, r, chunks, blocks, tail, next);
    assert DeliverAll(parse, r, chunks) == DeliverAll(parse, Deliver(parse, r, first), [second]);
  }

  lemma CutBehind<T>(tail: seq<T>, more: seq<T>, n: nat)
    requires n <= |more|
    ensures (tail + more)[..|tail| + n] == tail + more[..n] && (tail + more)[|tail| + n..] == more[n..]
  {
  }

  /** Some more bytes arrive: the parcels that are now complete are handed over in order. */
  lemma CarryDelivers(printer: Printer, parse: Parser, l: Link, sent: seq<Parcel>, seen: nat, tail: seq<Byte>, n: nat)
    returns (k: nat, after: seq<Byte>)
    requires Faithful(printer, parse) && AllFit(printer, sent)
    requires Carries(printer, l, sent, seen, tail) && n <= |l.wire| && Sound(l.reader)
    ensures seen + k <= |sent|
    ensures Contents(parse, NewBlocks(l.reader, Carry(parse, l, n).reader)) == sent[seen..seen + k]
    ensures Carries(printer, Carry(parse, l, n), sent, seen + k, after)
  {
    hide Blocks, CounterAfter, Read, Block, Wire, NoneSkipped, LastId, Contents, Frame, BlockIfSent, ParseHex, SplitAt;
    var at, rest := CounterAfter(0, sent[..seen]), sent[seen..];
    var bs := Blocks(printer, at, rest);
    var now := l.wire[..n];
    SplitIsExact(bs, |tail| + n);
    var cut := SplitAt(bs, |tail| + n);
    k, after := cut.whole, cut.tail;
    CutBehind(tail, l.wire, n);
    SentSplit(printer, parse, sent, seen, 0);
    SentSplit(printer, parse, sent, seen, k);
    var r := Reader(0, [], [], at, Blocks(printer, 0, sent[..seen]));
    HoldsTail(printer, parse, l, sent, seen, tail);
    var next := if k == |bs| then [TYPE_BINARY] else bs[k];
    if k == |bs| { FrameIsLong(next); }
    DeliveredInTwo(parse, r, tail, now, bs[..k], after, next);
    assert r.blocks + bs[..k] == Blocks(printer, 0, sent[..seen + k]);
    assert NewBlocks(l.reader, Carry(parse, l, n).reader) == bs[..k];
    assert sent[seen + k..] != [] ==> sent[seen + k..][0] == sent[seen + k];
  }

  lemma FrameIsLong(block: seq<Byte>)
    requires Sendable(block)
    ensures Begins([], block)
  {
    assert |Frame(block)| >= 4;
  }
}
