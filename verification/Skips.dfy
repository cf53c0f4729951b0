/** Streams with messages in them that are skipped, cut into any deliveries. */
module Skips {
  import opened Framing
  import opened Messages

  /** The reader holds the beginning of a frame; more bytes come. */
  lemma HeldArrives(parse: Parser, r: Reader, tail: seq<Byte>, next: seq<Byte>, bytes: seq<Byte>)
    requires AtRest(r) && Begins(tail, next)
    ensures Sound(Holding(r, tail)) && Deliver(parse, Holding(r, tail), bytes) == Read(parse, Arrive(r, tail + bytes))
  {
    hide Read, Smooth;
    var whole := Arrive(r, tail);
    assert whole.pending == tail;
    assert Arrive(whole, bytes) == Arrive(r, tail + bytes);
    if |tail| >= 4 {
      HeaderStarts(next, []);
      assert Frame(next) + [] == Frame(next) && tail[..4] == Frame(next)[..4];
      HeaderFirst(parse, whole, bytes);
      var a, b := Arrive(Holding(r, tail), bytes), Arrive(TakeHeader(whole), bytes);
      if tail[4..] + bytes == [] {
        assert a == b;
      } else {
        assert a.got + a.pending == b.got + b.pending;
        Regroup(parse, a, b);
      }
    }
  }

  /** A frame that could follow: the one begun, or any. */
  function Next(blocks: seq<seq<Byte>>, c: Split): seq<Byte> {
    if c.whole < |blocks| then blocks[c.whole] else [TYPE_BINARY]
  }

  lemma NextBegins(blocks: seq<seq<Byte>>, n: nat)
    requires Sendables(blocks) && n <= |Wire(blocks)|
    ensures Begins(SplitAt(blocks, n).tail, Next(blocks, SplitAt(blocks, n)))
  {
    SplitIsExact(blocks, n);
    assert |Frame([TYPE_BINARY])| >= 4;
  }

  /** The chunks are the beginning of the stream of frames from byte `held` on. */
  predicate Follows(blocks: seq<seq<Byte>>, held: nat, chunks: seq<seq<Byte>>) {
    && Sendables(blocks) && held <= |Wire(blocks)| && SplitAt(blocks, held).whole == 0
    && Flat(chunks) <= Wire(blocks)[held..]
  }

  /** No delivery that completes a message to be skipped ends inside the body of a block. */
  predicate EndsWell(parse: Parser, lastId: int, blocks: seq<seq<Byte>>, held: nat, chunks: seq<seq<Byte>>)
    requires Follows(blocks, held, chunks)
    decreases |chunks|
  {
    chunks == [] ||
    (FollowsOn(blocks, held, chunks);
     var c := SplitAt(blocks, held + |chunks[0]|);
     (NoneSkipped(parse, blocks[..c.whole], lastId) || |c.tail| < 4) &&
     EndsWell(parse, LastId(parse, blocks[..c.whole], lastId), blocks[c.whole..], |c.tail|, chunks[1..]))
  }

  lemma FollowsOn(blocks: seq<seq<Byte>>, held: nat, chunks: seq<seq<Byte>>)
    requires Follows(blocks, held, chunks) && chunks != []
    ensures held + |chunks[0]| <= |Wire(blocks)|
    ensures var c := SplitAt(blocks, held + |chunks[0]|);
            && c.whole <= |blocks| && Follows(blocks[c.whole..], |c.tail|, chunks[1..])
            && Wire(blocks)[..held] + chunks[0] == Wire(blocks[..c.whole]) + c.tail
  {
    hide Wire, Frame, SplitAt;
    var w, n := Wire(blocks), held + |chunks[0]|;
    assert w[held..][..|Flat(chunks)|] == Flat(chunks) && Flat(chunks)[..|chunks[0]|] == chunks[0];
    assert w[..held] + chunks[0] == w[..n];
    SplitIsExact(blocks, n);
    var c := SplitAt(blocks, n);
    var later := blocks[c.whole..];
    assert Wire(later)[|c.tail|..] == w[n..];
    assert Flat(chunks[1..]) == Flat(chunks)[|chunks[0]|..];
    assert Flat(chunks[1..]) <= w[n..] by {
      assert w[held..][|chunks[0]|..] == w[n..];
    }
    TailIsBegun(blocks, n);
  }

  lemma {:induction false} TailIsBegun(blocks: seq<seq<Byte>>, n: nat)
    requires Sendables(blocks) && n <= |Wire(blocks)|
    ensures var c := SplitAt(blocks, n);
            && c.whole <= |blocks| && |c.tail| <= |Wire(blocks[c.whole..])|
            && SplitAt(blocks[c.whole..], |c.tail|) == Split(0, c.tail)
  {
    SplitIsExact(blocks, n);
    var c := SplitAt(blocks, n);
    if c.whole < |blocks| {
      var later := blocks[c.whole..];
      WireFirst(later);
      assert later[0] == blocks[c.whole] && Frame(later[0])[..|c.tail|] == c.tail;
    }
  }

  /** After each delivery the reader has handed over the blocks completed that are not to be
      skipped, and holds exactly the beginning of the next frame.  `r` is the reader without
      what it holds. */
  predicate LosesNothing(parse: Parser, r: Reader, blocks: seq<seq<Byte>>, held: nat, chunks: seq<seq<Byte>>,
                         now: Reader)
    requires Follows(blocks, held, chunks) && Sound(now)
    decreases |chunks|
  {
    now == Holding(r, Wire(blocks)[..held]) &&
    (chunks == [] ||
     (FollowsOn(blocks, held, chunks);
      var c := SplitAt(blocks, held + |chunks[0]|);
      LosesNothing(parse, Handed(parse, r, blocks[..c.whole]), blocks[c.whole..], |c.tail|, chunks[1..],
                   Deliver(parse, now, chunks[0]))))
  }

  /** What one delivery leaves of a reader that holds the beginning of a frame. */
  lemma OneMoreDelivery(parse: Parser, r: Reader, blocks: seq<seq<Byte>>, held: nat, chunks: seq<seq<Byte>>)
    requires AtRest(r) && Follows(blocks, held, chunks) && chunks != []
    ensures held + |chunks[0]| <= |Wire(blocks)| && Sound(Holding(r, Wire(blocks)[..held]))
    ensures var c := SplitAt(blocks, held + |chunks[0]|);
            && c.whole <= |blocks|
            && Deliver(parse, Holding(r, Wire(blocks)[..held]), chunks[0]) == Left(parse, r, blocks[..c.whole], c.tail)
  {
    hide Read, Smooth, Frame, Left, SplitAt, Holding;
    FollowsOn(blocks, held, chunks);
    var n := held + |chunks[0]|;
    var c, c0 := SplitAt(blocks, n), SplitAt(blocks, held);
    SplitIsExact(blocks, held);
    assert Wire(blocks[..0]) + c0.tail == c0.tail by { assert blocks[..0] == []; }
    NextBegins(blocks, held);
    NextBegins(blocks, n);
    HeldArrives(parse, r, c0.tail, Next(blocks, c0), chunks[0]);
    OneDelivery(parse, r, blocks[..c.whole], c.tail, Next(blocks, c));
  }

  lemma LeftIsHeldIff(parse: Parser, r: Reader, blocks: seq<seq<Byte>>, tail: seq<Byte>, next: seq<Byte>)
    requires AtRest(r) && Begins(tail, next)
    ensures AtRest(Handed(parse, r, blocks)) && Sound(Left(parse, r, blocks, tail))
    ensures Left(parse, r, blocks, tail) == Holding(Handed(parse, r, blocks), tail)
       <==> NoneSkipped(parse, blocks, r.lastId) || |tail| < 4
  {
    if |tail| >= 4 {
      HeaderStarts(next, []);
      assert Frame(next) + [] == Frame(next) && tail[..4] == Frame(next)[..4];
    }
  }

  /** Any stream of frames, with any messages in it that are skipped, cut in any way: the reader
      loses nothing exactly if no delivery that completes a message to be skipped ends inside
      the body of a block. */
  lemma {:induction false} SkipsLoseNothingIff(parse: Parser, r: Reader, blocks: seq<seq<Byte>>,
                                               held: nat, chunks: seq<seq<Byte>>)
    requires AtRest(r) && Follows(blocks, held, chunks)
    ensures Sound(Holding(r, Wire(blocks)[..held]))
    ensures LosesNothing(parse, r, blocks, held, chunks, Holding(r, Wire(blocks)[..held]))
       <==> EndsWell(parse, r.lastId, blocks, held, chunks)
    decreases |chunks|
  {
    hide Read, Smooth, Frame, Wire, Left, SplitAt, Holding, NoneSkipped, Deliver;
    NextBegins(blocks, held);
    BeginsIsSound(parse, r, blocks, held);
    if chunks != [] {
      FollowsOn(blocks, held, chunks);
      OneMoreDelivery(parse, r, blocks, held, chunks);
      var n := held + |chunks[0]|;
      var c := SplitAt(blocks, n);
      var done, later := blocks[..c.whole], blocks[c.whole..];
      NextBegins(blocks, n);
      LeftIsHeldIff(parse, r, done, c.tail, Next(blocks, c));
      TailIsHeld(blocks, n);
      var h := Handed(parse, r, done);
      if NoneSkipped(parse, done, r.lastId) || |c.tail| < 4 {
        SkipsLoseNothingIff(parse, h, later, |c.tail|, chunks[1..]);
      } else if chunks[1..] != [] {
        NotHeld(parse, h, later, |c.tail|, chunks[1..], Left(parse, r, done, c.tail));
      }
    }
  }

  lemma TailIsHeld(blocks: seq<seq<Byte>>, n: nat)
    requires Sendables(blocks) && n <= |Wire(blocks)|
    ensures var c := SplitAt(blocks, n);
            && c.whole <= |blocks| && |c.tail| <= |Wire(blocks[c.whole..])|
            && Wire(blocks[c.whole..])[..|c.tail|] == c.tail
  {
    SplitIsExact(blocks, n);
  }

  lemma BeginsIsSound(parse: Parser, r: Reader, blocks: seq<seq<Byte>>, held: nat)
    requires AtRest(r) && Follows(blocks, held, [])
    ensures Sound(Holding(r, Wire(blocks)[..held]))
  {
    NextBegins(blocks, held);
    SplitIsExact(blocks, held);
    var c := SplitAt(blocks, held);
    assert Wire(blocks[..0]) + c.tail == c.tail by { assert blocks[..0] == []; }
    ReadBeginning(parse, r, c.tail, Next(blocks, c));
  }

  lemma NotHeld(parse: Parser, r: Reader, blocks: seq<seq<Byte>>, held: nat, chunks: seq<seq<Byte>>, now: Reader)
    requires Follows(blocks, held, chunks) && Sound(now) && now != Holding(r, Wire(blocks)[..held])
    ensures !LosesNothing(parse, r, blocks, held, chunks, now)
  {
  }
}
