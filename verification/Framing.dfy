/** The wire protocol: blocks with a header of four hexadecimal digits, and the reader that
    puts them together again from whatever the network delivers. */
module Framing {
  import opened Digits
  import opened Wrappers
  import opened Messages

  // ---- the header -------------------------------------------------------------------

  function Digit(d: nat): Byte
    requires d < 16
  {
    if d < 10 then (48 + d) as Byte else (87 + d) as Byte
  }

  /** Both cases of the letters are digits to the parser. */
  function DigitValue(b: Byte): Option<nat> {
    var c := b as int;
    if 48 <= c < 58 then Some(c - 48)
    else if 97 <= c < 103 then Some(c - 87)
    else if 65 <= c < 71 then Some(c - 55)
    else None
  }

  /** QByteArray::number(n, 16). */
  function HexNumber(n: nat): (h: seq<Byte>)
    ensures |h| >= 1
  {
    if n < 16 then [Digit(n)] else HexNumber(n / 16) + [Digit(n % 16)]
  }

  /** toLongLong(NULL, 16) on a string of digits; 0 when it is not one. */
  function ParseHex(h: seq<Byte>): nat {
    match HexValue(h) case Some(n) => n case None => 0
  }

  function HexValue(h: seq<Byte>): Option<nat> {
    if h == [] then Some(0)
    else
      match (HexValue(h[..|h| - 1]), DigitValue(h[|h| - 1]))
      case (Some(n), Some(d)) => Some(16 * n + d)
      case (_, _) => None
  }

  /** The header of a block of `n` bytes: the number written over four '0'. */
  function Header(n: nat): (h: seq<Byte>)
    requires n <= MAX_BLOCK
    ensures |h| == 4
  {
    HexWidth(n, 4);
    var h := HexNumber(n);
    Nulls(4 - |h|) + h
  }

  function Nulls(k: nat): (z: seq<Byte>)
    ensures |z| == k
  {
    seq(k, _ => 48)
  }

  function Power16(k: nat): nat {
    if k == 0 then 1 else 16 * Power16(k - 1)
  }

  lemma {:induction false} HexWidth(n: nat, k: nat)
    requires 1 <= k && n < Power16(k)
    ensures |HexNumber(n)| <= k
  {
    if n >= 16 { HexWidth(n / 16, k - 1); }
  }

  lemma {:induction false} HexNumberValue(n: nat)
    ensures HexValue(HexNumber(n)) == Some(n)
  {
    if n < 16 {
      assert HexNumber(n)[..0] == [];
    } else {
      HexNumberValue(n / 16);
      assert HexNumber(n)[..|HexNumber(n)| - 1] == HexNumber(n / 16);
    }
  }

  lemma {:induction false} LeadingNulls(k: nat, h: seq<Byte>)
    ensures HexValue(Nulls(k) + h) == HexValue(h)
  {
    if h == [] {
      assert Nulls(k) + h == Nulls(k);
      if k > 0 {
        assert Nulls(k)[..k - 1] == Nulls(k - 1) && Nulls(k - 1) + [] == Nulls(k - 1);
        LeadingNulls(k - 1, []);
      }
    } else {
      assert (Nulls(k) + h)[..|Nulls(k) + h| - 1] == Nulls(k) + h[..|h| - 1];
      LeadingNulls(k, h[..|h| - 1]);
    }
  }

  /** The reader gets the size back from the header. */
  lemma HeaderRoundTrip(n: nat)
    requires n <= MAX_BLOCK
    ensures ParseHex(Header(n)) == n
  {
    HexWidth(n, 4);
    HexNumberValue(n);
    LeadingNulls(4 - |HexNumber(n)|, HexNumber(n));
  }

  /** The number a string of small digits spells, by the places of the digits. */
  function Spelled(h: seq<Byte>): nat {
    if h == [] then 0 else 16 * Spelled(h[..|h| - 1]) + Place(h[|h| - 1] as int as char)
  }

  lemma DigitPlace(d: nat)
    requires d < 16
    ensures IsDigit(Digit(d)) && Place(Digit(d) as int as char) == d
  {
    assert DIGITS[d] == Digit(d) as int as char;
    PlaceOf(Digit(d) as int as char, d);
  }

  predicate IsDigit(b: Byte) {
    (b as int as char) in DIGITS
  }

  predicate AreDigits(h: seq<Byte>) {
    forall k :: 0 <= k < |h| ==> IsDigit(h[k])
  }

  lemma {:induction false} HexNumberSpells(n: nat)
    ensures AreDigits(HexNumber(n)) && Spelled(HexNumber(n)) == n
  {
    hide Digit, Place, IsDigit;
    DigitPlace(n % 16);
    if n >= 16 {
      HexNumberSpells(n / 16);
      assert HexNumber(n)[..|HexNumber(n)| - 1] == HexNumber(n / 16);
    } else {
      assert HexNumber(n)[..0] == [];
    }
  }

  lemma {:induction false} NullsSpellNothing(k: nat, h: seq<Byte>)
    ensures Spelled(Nulls(k) + h) == Spelled(h) && AreDigits(Nulls(k))
  {
    hide Place, IsDigit;
    DigitPlace(0);
    assert Digit(0) == 48;
    if h == [] {
      assert Nulls(k) + h == Nulls(k);
      if k > 0 {
        assert Nulls(k)[..k - 1] == Nulls(k - 1) && Nulls(k - 1) + [] == Nulls(k - 1);
        NullsSpellNothing(k - 1, []);
      }
    } else {
      assert (Nulls(k) + h)[..|Nulls(k) + h| - 1] == Nulls(k) + h[..|h| - 1];
      NullsSpellNothing(k, h[..|h| - 1]);
    }
  }

  lemma SpelledFour(h: seq<Byte>)
    requires |h| == 4
    ensures Spelled(h) == 4096 * Place(h[0] as int as char) + 256 * Place(h[1] as int as char)
                          + 16 * Place(h[2] as int as char) + Place(h[3] as int as char)
  {
    hide Place;
    assert h[..3][..2] == h[..2] && h[..2][..1] == h[..1] && h[..1][..0] == [];
    assert Spelled(h[..1]) == Place(h[0] as int as char);
    assert Spelled(h[..2]) == 16 * Spelled(h[..1]) + Place(h[1] as int as char);
    assert Spelled(h[..3]) == 16 * Spelled(h[..2]) + Place(h[2] as int as char);
  }

  lemma HeaderSpells(n: nat)
    requires n <= MAX_BLOCK
    ensures AreDigits(Header(n)) && Spelled(Header(n)) == n
  {
    hide Place, IsDigit, HexNumber;
    HexWidth(n, 4);
    HexNumberSpells(n);
    NullsSpellNothing(4 - |HexNumber(n)|, HexNumber(n));
  }

  /** On the wire: the size in four small digits, the highest first. */
  lemma HeaderDigits(n: nat)
    requires n <= MAX_BLOCK
    ensures var h := Header(n);
            && AreDigits(h)
            && 4096 * Place(h[0] as int as char) + 256 * Place(h[1] as int as char)
               + 16 * Place(h[2] as int as char) + Place(h[3] as int as char) == n
  {
    hide Place, IsDigit, HexNumber;
    HeaderSpells(n);
    SpelledFour(Header(n));
  }

  /** The reader takes small letters and capitals for digits, and nothing else. */
  lemma DigitValueMeans(b: Byte, v: nat)
    ensures DigitValue(b) == Some(v) <==>
            v < 16 && (b as int as char == DIGITS[v] || b as int as char == CAPITALS[v])
  {
  }

  /** What the reader makes of four bytes: the number they spell, or 0 if one is no digit. */
  lemma ParseMeans(h: seq<Byte>)
    requires |h| == 4
    ensures var a, b, c, d := DigitValue(h[0]), DigitValue(h[1]), DigitValue(h[2]), DigitValue(h[3]);
            ParseHex(h) == if a.Some? && b.Some? && c.Some? && d.Some?
                           then 4096 * a.value + 256 * b.value + 16 * c.value + d.value else 0
  {
    assert h[..3][..2] == h[..2] && h[..2][..1] == h[..1] && h[..1][..0] == [];
    assert HexValue(h[..1]) == DigitValue(h[0]);
    assert HexValue(h[..2]) == match (HexValue(h[..1]), DigitValue(h[1]))
                               case (Some(n), Some(d)) => Some(16 * n + d)
                               case (_, _) => None;
    assert HexValue(h[..3]) == match (HexValue(h[..2]), DigitValue(h[2]))
                               case (Some(n), Some(d)) => Some(16 * n + d)
                               case (_, _) => None;
  }

  /** One block on the wire. */
  function Frame(block: seq<Byte>): seq<Byte>
    requires |block| <= MAX_BLOCK
  {
    Header(|block|) + block
  }

  predicate Sendable(block: seq<Byte>) {
    1 <= |block| <= MAX_BLOCK
  }

  function Wire(blocks: seq<seq<Byte>>): seq<Byte>
    requires forall k :: 0 <= k < |blocks| ==> Sendable(blocks[k])
  {
    if blocks == [] then []
    else
      assert Sendable(blocks[0]);
      Frame(blocks[0]) + Wire(blocks[1..])
  }

  // ---- the reader -------------------------------------------------------------------

  /** `got` are the bytes of the current block read so far, `pending` the bytes the socket
      holds, `blocks` the blocks handed over.  `lastId` is protocol_receive_msg_id. */
  datatype Reader = Reader(blockSize: nat, got: seq<Byte>, pending: seq<Byte>, lastId: int, blocks: seq<seq<Byte>>)

  const Start := Reader(0, [], [], 0, [])

  /** The duplicate filter: ids above 1 have to grow, 1 is always taken for a new cycle. */
  predicate Duplicate(id: int, lastId: int) {
    id <= lastId && id > 1
  }

  /** A protocol block that is no message, or a message already seen, is skipped. */
  predicate Skipped(parse: Parser, block: seq<Byte>, lastId: int) {
    block != [] && block[0] == TYPE_PROTOCOL &&
    match parse(block[1..])
    case None => true
    case Some(p) => Duplicate(p.id, lastId)
  }

  function IdAfter(parse: Parser, block: seq<Byte>, lastId: int): int {
    if block != [] && block[0] == TYPE_PROTOCOL && parse(block[1..]).Some? then parse(block[1..]).value.id else lastId
  }

  /** Skipped is a block of type S that is no message, or one whose number is above 1 and not
      above the last; the number of any other message is the last one then. */
  lemma SkippedMeans(parse: Parser, block: seq<Byte>, lastId: int)
    requires block != []
    ensures var isMessage := block[0] as int as char == 'S';
            && (Skipped(parse, block, lastId) <==>
                  isMessage && (parse(block[1..]) == None ||
                                exists id, m :: parse(block[1..]) == Some(Packet(id, m)) && 1 < id <= lastId))
            && (forall id, m :: isMessage && parse(block[1..]) == Some(Packet(id, m)) ==>
                  IdAfter(parse, block, lastId) == id)
            && (!isMessage ==> IdAfter(parse, block, lastId) == lastId)
  {
    match parse(block[1..])
    case None =>
    case Some(p) => assert p == Packet(p.id, p.message);
  }

  /** Takes the header if none is known yet. */
  function TakeHeader(r: Reader): Reader
    requires r.blockSize == 0 ==> |r.pending| >= 4
  {
    if r.blockSize != 0 then r
    else r.(blockSize := ParseHex(r.pending[..4]), got := [], pending := r.pending[4..])
  }

  /** Takes bytes of the block, as many as there are and it needs. */
  function TakeBytes(r: Reader): Reader
    requires |r.got| <= r.blockSize
  {
    if r.blockSize > |r.pending| + |r.got| then r.(got := r.got + r.pending, pending := [])
    else
      var n := r.blockSize - |r.got|;
      r.(got := r.got + r.pending[..n], pending := r.pending[n..])
  }

  predicate Sound(r: Reader) {
    |r.got| <= r.blockSize || r.blockSize == 0
  }

  /** readDataFromRemoteHost.  A skipped message reads on from inside its handler, and the
      caller then forgets what that left of an unfinished block. */
  function Read(parse: Parser, r: Reader): (t: Reader)
    requires Sound(r)
    ensures Sound(t) && |t.pending| <= |r.pending|
    decreases |r.pending|, r.blockSize != 0
  {
    if r.blockSize == 0 && |r.pending| < 4 then r
    else
      var t := TakeBytes(TakeHeader(r));
      if |t.got| == 0 || |t.got| < t.blockSize then t
      else if Skipped(parse, t.got, t.lastId) then
        var inner := Read(parse, t.(blockSize := 0, got := []));
        Read(parse, inner.(blockSize := 0, got := []))
      else
        Read(parse, t.(blockSize := 0, got := [], lastId := IdAfter(parse, t.got, t.lastId),
                       blocks := t.blocks + [t.got]))
  }

  /** readyRead: more bytes have come in. */
  function Deliver(parse: Parser, r: Reader, bytes: seq<Byte>): Reader
    requires Sound(r)
  {
    Read(parse, Arrive(r, bytes))
  }

  function Arrive(r: Reader, bytes: seq<Byte>): Reader {
    r.(pending := r.pending + bytes)
  }

  // ---- delivery does not matter -----------------------------------------------------

  /** Reading meets no empty block and skips nothing. */
  predicate Smooth(parse: Parser, r: Reader)
    requires Sound(r)
    decreases |r.pending|, r.blockSize != 0
  {
    if r.blockSize == 0 && |r.pending| < 4 then true
    else
      var t := TakeBytes(TakeHeader(r));
      t.blockSize > 0 &&
      (|t.got| == t.blockSize ==>
         !Skipped(parse, t.got, t.lastId) &&
         Smooth(parse, t.(blockSize := 0, got := [], lastId := IdAfter(parse, t.got, t.lastId),
                          blocks := t.blocks + [t.got])))
  }

  /** Inside a block only the sequence of bytes matters, not which of them have been taken. */
  lemma Regroup(parse: Parser, r: Reader, t: Reader)
    requires r.blockSize == t.blockSize > 0 && |r.got| < r.blockSize && |t.got| < t.blockSize
    requires r.got + r.pending == t.got + t.pending && r.lastId == t.lastId && r.blocks == t.blocks
    requires r.got + r.pending != []
    ensures Read(parse, r) == Read(parse, t) && Smooth(parse, r) == Smooth(parse, t)
  {
    var s := r.got + r.pending;
    if r.blockSize > |s| {
      assert TakeBytes(r).got == s == TakeBytes(t).got;
    } else {
      assert TakeBytes(r).got == s[..r.blockSize] == TakeBytes(t).got;
      assert TakeBytes(r).pending == s[r.blockSize..] == TakeBytes(t).pending;
    }
  }

  /** A reader between deliveries: it waits for a header or for bytes of a block. */
  predicate Waiting(r: Reader) {
    if r.blockSize == 0 then |r.pending| < 4 else r.pending == [] && |r.got| < r.blockSize
  }

  lemma {:induction false} ReadWaits(parse: Parser, r: Reader)
    requires Sound(r) && Smooth(parse, r)
    ensures Waiting(Read(parse, r))
    decreases |r.pending|, r.blockSize != 0
  {
    if r.blockSize == 0 && |r.pending| < 4 {
    } else {
      var t := TakeBytes(TakeHeader(r));
      if |t.got| == t.blockSize {
        ReadWaits(parse, t.(blockSize := 0, got := [], lastId := IdAfter(parse, t.got, t.lastId),
                            blocks := t.blocks + [t.got]));
      }
    }
  }

  lemma HeaderFirst(parse: Parser, r: Reader, more: seq<Byte>)
    requires r.blockSize == 0 && |r.pending| >= 4 && ParseHex(r.pending[..4]) > 0
    ensures Read(parse, Arrive(r, more)) == Read(parse, Arrive(TakeHeader(r), more))
    ensures Smooth(parse, Arrive(r, more)) == Smooth(parse, Arrive(TakeHeader(r), more))
  {
    assert (r.pending + more)[..4] == r.pending[..4];
    assert (r.pending + more)[4..] == r.pending[4..] + more;
    assert TakeHeader(Arrive(r, more)) == Arrive(TakeHeader(r), more);
  }

  lemma WholeBlock(parse: Parser, r: Reader, more: seq<Byte>)
    requires r.blockSize > 0 && |r.got| < r.blockSize <= |r.got| + |r.pending|
    requires !Skipped(parse, TakeBytes(r).got, r.lastId)
    ensures var t := TakeBytes(r);
            var u := t.(blockSize := 0, got := [], lastId := IdAfter(parse, t.got, t.lastId),
                        blocks := t.blocks + [t.got]);
            && Read(parse, Arrive(r, more)) == Read(parse, Arrive(u, more))
            && (Smooth(parse, Arrive(r, more)) == Smooth(parse, Arrive(u, more)))
  {
    var n := r.blockSize - |r.got|;
    assert (r.pending + more)[..n] == r.pending[..n];
    assert (r.pending + more)[n..] == r.pending[n..] + more;
    assert TakeBytes(Arrive(r, more)) == Arrive(TakeBytes(r), more);
  }

  /** Reading what has come and then the rest is reading everything at once. */
  lemma {:induction false} ReadInTwo(parse: Parser, r: Reader, more: seq<Byte>)
    requires Sound(r) && (r.blockSize > 0 ==> |r.got| < r.blockSize) && Smooth(parse, Arrive(r, more))
    ensures Smooth(parse, r) && Smooth(parse, Arrive(Read(parse, r), more))
    ensures Read(parse, Arrive(Read(parse, r), more)) == Read(parse, Arrive(r, more))
    decreases |r.pending|, r.blockSize == 0
  {
    if r.blockSize == 0 {
      if |r.pending| >= 4 {
        assert (r.pending + more)[..4] == r.pending[..4];
        HeaderFirst(parse, r, more);
        HeaderFirst(parse, r, []);
        assert Arrive(r, []) == r && Arrive(TakeHeader(r), []) == TakeHeader(r);
        ReadInTwo(parse, TakeHeader(r), more);
      }
    } else if |r.got| + |r.pending| < r.blockSize {
      if r.got + r.pending + more != [] {
        assert r.got + (r.pending + more) == (r.got + r.pending) + more;
        Regroup(parse, Arrive(Read(parse, r), more), Arrive(r, more));
      } else {
        assert Read(parse, r) == r;
      }
    } else {
      var t := TakeBytes(r);
      assert TakeBytes(Arrive(r, more)).got == t.got by {
        var n := r.blockSize - |r.got|;
        assert (r.pending + more)[..n] == r.pending[..n];
      }
      WholeBlock(parse, r, more);
      WholeBlock(parse, r, []);
      var u := t.(blockSize := 0, got := [], lastId := IdAfter(parse, t.got, t.lastId), blocks := t.blocks + [t.got]);
      assert Arrive(r, []) == r && Arrive(u, []) == u;
      ReadInTwo(parse, u, more);
    }
  }

  function DeliverAll(parse: Parser, r: Reader, chunks: seq<seq<Byte>>): (t: Reader)
    requires Sound(r)
    ensures Sound(t)
    decreases |chunks|
  {
    if chunks == [] then r else DeliverAll(parse, Deliver(parse, r, chunks[0]), chunks[1..])
  }

  /** However a stream is cut into deliveries, the reader ends in the same state. */
  lemma {:induction false} CutsDoNotMatter(parse: Parser, r: Reader, chunks: seq<seq<Byte>>)
    requires Sound(r) && Waiting(r) && Smooth(parse, Arrive(r, Flat(chunks)))
    ensures DeliverAll(parse, r, chunks) == Deliver(parse, r, Flat(chunks))
    decreases |chunks|
  {
    if chunks == [] {
      assert Arrive(r, []) == r;
    } else {
      var rest := Flat(chunks[1..]);
      var first := Arrive(r, chunks[0]);
      assert Arrive(first, rest) == Arrive(r, Flat(chunks)) by {
        assert (r.pending + chunks[0]) + rest == r.pending + (chunks[0] + rest);
      }
      ReadInTwo(parse, first, rest);
      ReadWaits(parse, first);
      CutsDoNotMatter(parse, Read(parse, first), chunks[1..]);
    }
  }

  // ---- what is handed over ------------------------------------------------------------

  /** No block is known: the reader is at the start of a frame and has seen nothing of it. */
  predicate AtRest(r: Reader) {
    r.blockSize == 0 && r.got == [] && r.pending == []
  }

  predicate Sendables(blocks: seq<seq<Byte>>) {
    forall k :: 0 <= k < |blocks| ==> Sendable(blocks[k])
  }

  /** `tail` is the beginning of the frame of `next`, and not all of it. */
  predicate Begins(tail: seq<Byte>, next: seq<Byte>) {
    Sendable(next) && tail < Frame(next)
  }

  /** The reader holds the beginning of a frame. */
  function Holding(r: Reader, tail: seq<Byte>): Reader {
    if |tail| < 4 then r.(pending := tail)
    else r.(blockSize := ParseHex(tail[..4]), got := tail[4..])
  }

  /** The blocks that are not skipped, in order. */
  function Kept(parse: Parser, blocks: seq<seq<Byte>>, lastId: int): seq<seq<Byte>> {
    if blocks == [] then []
    else if Skipped(parse, blocks[0], lastId) then Kept(parse, blocks[1..], lastId)
    else [blocks[0]] + Kept(parse, blocks[1..], IdAfter(parse, blocks[0], lastId))
  }

  /** The id of the last message that was not skipped. */
  function LastId(parse: Parser, blocks: seq<seq<Byte>>, lastId: int): int {
    if blocks == [] then lastId
    else if Skipped(parse, blocks[0], lastId) then LastId(parse, blocks[1..], lastId)
    else LastId(parse, blocks[1..], IdAfter(parse, blocks[0], lastId))
  }

  predicate NoneSkipped(parse: Parser, blocks: seq<seq<Byte>>, lastId: int) {
    blocks == [] ||
    (!Skipped(parse, blocks[0], lastId) && NoneSkipped(parse, blocks[1..], IdAfter(parse, blocks[0], lastId)))
  }

  lemma {:induction false} NothingSkippedKeepsAll(parse: Parser, blocks: seq<seq<Byte>>, lastId: int)
    ensures NoneSkipped(parse, blocks, lastId) <==> Kept(parse, blocks, lastId) == blocks
    ensures |Kept(parse, blocks, lastId)| <= |blocks|
  {
    if blocks != [] {
      if Skipped(parse, blocks[0], lastId) {
        NothingSkippedKeepsAll(parse, blocks[1..], lastId);
      } else {
        var id := IdAfter(parse, blocks[0], lastId);
        NothingSkippedKeepsAll(parse, blocks[1..], id);
        assert Kept(parse, blocks, lastId)[1..] == Kept(parse, blocks[1..], id);
        assert blocks == [blocks[0]] + blocks[1..];
      }
    }
  }

  function Handed(parse: Parser, r: Reader, blocks: seq<seq<Byte>>): Reader {
    r.(blocks := r.blocks + Kept(parse, blocks, r.lastId), lastId := LastId(parse, blocks, r.lastId))
  }

  lemma HeaderStarts(block: seq<Byte>, more: seq<Byte>)
    requires Sendable(block)
    ensures (Frame(block) + more)[..4] == Header(|block|) && ParseHex(Header(|block|)) == |block|
    ensures (Frame(block) + more)[4..] == block + more
  {
    HeaderRoundTrip(|block|);
  }

  /** A reader at rest that finds the beginning of one frame keeps it. */
  lemma ReadBeginning(parse: Parser, r: Reader, tail: seq<Byte>, next: seq<Byte>)
    requires AtRest(r) && Begins(tail, next)
    ensures Read(parse, Arrive(r, tail)) == Holding(r, tail) && Sound(Holding(r, tail))
    ensures Smooth(parse, Arrive(r, tail))
  {
    assert Arrive(r, tail).pending == tail;
    if |tail| >= 4 {
      HeaderStarts(next, []);
      assert Frame(next) + [] == Frame(next);
      assert tail[..4] == Frame(next)[..4];
    }
  }

  /** A reader at rest that finds a whole frame has its block in hand. */
  lemma ReadWhole(parse: Parser, r: Reader, block: seq<Byte>, more: seq<Byte>)
    requires AtRest(r) && Sendable(block)
    ensures TakeBytes(TakeHeader(Arrive(r, Frame(block) + more)))
         == r.(blockSize := |block|, got := block, pending := more)
  {
    HeaderStarts(block, more);
    assert Arrive(r, Frame(block) + more).pending == Frame(block) + more;
    assert (block + more)[..|block|] == block && (block + more)[|block|..] == more;
    assert [] + block == block;
  }

  function Accept(parse: Parser, r: Reader, block: seq<Byte>): Reader {
    r.(lastId := IdAfter(parse, block, r.lastId), blocks := r.blocks + [block])
  }

  lemma ReadKept(parse: Parser, r: Reader, block: seq<Byte>, more: seq<Byte>)
    requires AtRest(r) && Sendable(block) && !Skipped(parse, block, r.lastId)
    ensures var u := Arrive(Accept(parse, r, block), more);
            && Read(parse, Arrive(r, Frame(block) + more)) == Read(parse, u)
            && Smooth(parse, Arrive(r, Frame(block) + more)) == Smooth(parse, u)
  {
    ReadWhole(parse, r, block, more);
    var u := Accept(parse, r, block);
    assert u.(pending := more) == Arrive(u, more);
    assert |Arrive(r, Frame(block) + more).pending| >= 4;
  }

  lemma ReadSkipped(parse: Parser, r: Reader, block: seq<Byte>, more: seq<Byte>)
    requires AtRest(r) && Sendable(block) && Skipped(parse, block, r.lastId)
    ensures Read(parse, Arrive(r, Frame(block) + more))
         == Read(parse, Read(parse, Arrive(r, more)).(blockSize := 0, got := []))
  {
    ReadWhole(parse, r, block, more);
    assert r.(pending := more) == Arrive(r, more);
    assert |Arrive(r, Frame(block) + more).pending| >= 4;
  }

  /** What one delivery of whole frames and the beginning of another leaves. */
  function Left(parse: Parser, r: Reader, blocks: seq<seq<Byte>>, tail: seq<Byte>): Reader {
    var h := Handed(parse, r, blocks);
    if NoneSkipped(parse, blocks, r.lastId) || |tail| < 4 then Holding(h, tail) else h
  }

  lemma LeftAfterSkip(parse: Parser, r: Reader, blocks: seq<seq<Byte>>, tail: seq<Byte>)
    requires AtRest(r) && blocks != [] && Skipped(parse, blocks[0], r.lastId)
    ensures Sound(Left(parse, r, blocks[1..], tail).(blockSize := 0, got := []))
    ensures Read(parse, Left(parse, r, blocks[1..], tail).(blockSize := 0, got := [])) == Left(parse, r, blocks, tail)
  {
  }

  lemma LeftAfterBlock(parse: Parser, r: Reader, blocks: seq<seq<Byte>>, tail: seq<Byte>)
    requires AtRest(r) && blocks != [] && !Skipped(parse, blocks[0], r.lastId)
    ensures Left(parse, Accept(parse, r, blocks[0]), blocks[1..], tail) == Left(parse, r, blocks, tail)
  {
    var u := Accept(parse, r, blocks[0]);
    assert r.blocks + Kept(parse, blocks, r.lastId) == u.blocks + Kept(parse, blocks[1..], u.lastId);
  }

  /** Everything one delivery of whole frames and the beginning of another can do: the
      blocks are handed over in order except those skipped, and the beginning is kept
      unless a block was skipped and the delivery reached into the body. */
  lemma {:induction false} OneDelivery(parse: Parser, r: Reader, blocks: seq<seq<Byte>>,
                                       tail: seq<Byte>, next: seq<Byte>)
    requires AtRest(r) && Sendables(blocks) && Begins(tail, next)
    ensures Read(parse, Arrive(r, Wire(blocks) + tail)) == Left(parse, r, blocks, tail)
    ensures NoneSkipped(parse, blocks, r.lastId) ==> Smooth(parse, Arrive(r, Wire(blocks) + tail))
    decreases |blocks|
  {
    hide Read, Smooth;
    if blocks == [] {
      assert Wire(blocks) + tail == tail && r.blocks + [] == r.blocks;
      ReadBeginning(parse, r, tail, next);
    } else {
      var block, rest := blocks[0], blocks[1..];
      var more := Wire(rest) + tail;
      assert Sendable(block);
      assert Wire(blocks) + tail == Frame(block) + more;
      if Skipped(parse, block, r.lastId) {
        OneDelivery(parse, r, rest, tail, next);
        ReadSkipped(parse, r, block, more);
        LeftAfterSkip(parse, r, blocks, tail);
      } else {
        OneDelivery(parse, Accept(parse, r, block), rest, tail, next);
        ReadKept(parse, r, block, more);
        LeftAfterBlock(parse, r, blocks, tail);
      }
    }
  }

  /** A stream of frames none of which is skipped, cut into any deliveries: the reader hands
      over exactly the blocks, in order, and holds exactly the unfinished rest. */
  lemma FramesSurviveDelivery(parse: Parser, r: Reader, chunks: seq<seq<Byte>>,
                              blocks: seq<seq<Byte>>, tail: seq<Byte>, next: seq<Byte>)
    requires AtRest(r) && Sendables(blocks) && Begins(tail, next)
    requires NoneSkipped(parse, blocks, r.lastId)
    requires Flat(chunks) == Wire(blocks) + tail
    ensures DeliverAll(parse, r, chunks)
         == Holding(r.(blocks := r.blocks + blocks, lastId := LastId(parse, blocks, r.lastId)), tail)
  {
    OneDelivery(parse, r, blocks, tail, next);
    CutsDoNotMatter(parse, r, chunks);
    NothingSkippedKeepsAll(parse, blocks, r.lastId);
  }

  /** After a skipped message the reader is where the rest of the delivery alone would have
      put it, exactly if the delivery does not end inside the body of a block. */
  lemma SkipIsHarmlessIff(parse: Parser, r: Reader, message: seq<Byte>, blocks: seq<seq<Byte>>,
                          tail: seq<Byte>, next: seq<Byte>)
    requires AtRest(r) && Sendable(message) && Sendables(blocks) && Begins(tail, next)
    requires Skipped(parse, message, r.lastId) && NoneSkipped(parse, blocks, r.lastId)
    ensures (Deliver(parse, r, Frame(message) + Wire(blocks) + tail) == Deliver(parse, r, Wire(blocks) + tail))
       <==> |tail| < 4
  {
    var all := [message] + blocks;
    assert all[1..] == blocks && Sendables(all);
    assert Wire(all) + tail == Frame(message) + Wire(blocks) + tail;
    OneDelivery(parse, r, all, tail, next);
    OneDelivery(parse, r, blocks, tail, next);
    if |tail| >= 4 {
      HeaderStarts(next, []);
      assert Frame(next) + [] == Frame(next) && tail[..4] == Frame(next)[..4];
    }
  }

  /** Then it does matter how the stream is cut: a block that arrives whole together with a
      skipped message is handed over, and is lost when its last byte comes later. */
  lemma SkipLosesBlock(parse: Parser, r: Reader, message: seq<Byte>)
    requires AtRest(r) && Sendable(message) && Skipped(parse, message, r.lastId)
    ensures var frame := Frame([TYPE_BINARY, 1]);
            && Deliver(parse, r, Frame(message) + frame).blocks == r.blocks + [[TYPE_BINARY, 1]]
            && Deliver(parse, Deliver(parse, r, Frame(message) + frame[..5]), frame[5..]).blocks == r.blocks
  {
    hide Smooth;
    var block := [TYPE_BINARY, 1];
    var frame := Frame(block);
    assert Sendable(block) && !Skipped(parse, block, r.lastId);
    var one, two := [message], [message, block];
    assert one[0] == message && one[1..] == [] && two[0] == message && two[1..] == [block] && [block][1..] == [];
    assert Sendables(one) && Sendables(two);
    assert Sendables([block]) && Wire([block]) == frame;
    assert Wire(two) + [] == Frame(message) + frame;
    assert Wire(one) + frame[..5] == Frame(message) + frame[..5];
    OneDelivery(parse, r, two, [], block);
    assert Kept(parse, [block], r.lastId) == [block];
    assert Kept(parse, two, r.lastId) == [block];
    assert Begins(frame[..5], block);
    OneDelivery(parse, r, one, frame[..5], block);
    assert Kept(parse, one, r.lastId) == [];
    assert !NoneSkipped(parse, one, r.lastId);
    var t := Deliver(parse, r, Frame(message) + frame[..5]);
    assert t == Handed(parse, r, one) && t.blocks == r.blocks;
    assert Deliver(parse, t, frame[5..]) == Arrive(t, frame[5..]);
  }

  /** The reader stops at a header that says zero and leaves what follows for the next
      delivery; no sender writes one. */
  lemma EmptyBlockStalls(parse: Parser, r: Reader, more: seq<Byte>)
    requires AtRest(r)
    ensures Deliver(parse, r, Frame([]) + more) == Arrive(r, more)
  {
    HeaderRoundTrip(0);
    var arrived := Arrive(r, Frame([]) + more);
    assert arrived.pending == Frame([]) + more;
    assert arrived.pending[..4] == Header(0) && arrived.pending[4..] == more;
    assert Arrive(r, more).pending == more;
    assert more[..0] == [] && more[0..] == more;
  }

  // ---- where a stream is cut ------------------------------------------------------------------

  lemma {:induction false} WireOfTwo(a: seq<seq<Byte>>, b: seq<seq<Byte>>)
    requires Sendables(a) && Sendables(b)
    ensures Sendables(a + b) && Wire(a + b) == Wire(a) + Wire(b)
    decreases |a|
  {
    hide Frame, Sendable;
    if a == [] {
      assert a + b == b;
    } else {
      assert (a + b)[1..] == a[1..] + b && (a + b)[0] == a[0];
      WireOfTwo(a[1..], b);
      BothSendable(a, b);
      WireFirst(a);
      WireFirst(a + b);
    }
  }

  lemma BothSendable(a: seq<seq<Byte>>, b: seq<seq<Byte>>)
    requires Sendables(a) && Sendables(b)
    ensures Sendables(a + b)
  {
  }

  lemma WireFirst(a: seq<seq<Byte>>)
    requires a != [] && Sendables(a)
    ensures Sendables(a[1..]) && |a[0]| <= MAX_BLOCK && Wire(a) == Frame(a[0]) + Wire(a[1..])
  {
    assert Sendable(a[0]);
  }

  /** The frames that are whole in the beginning of a stream, and what there is of the next. */
  datatype Split = Split(whole: nat, tail: seq<Byte>)

  function SplitAt(blocks: seq<seq<Byte>>, n: nat): Split
    requires Sendables(blocks) && n <= |Wire(blocks)|
    decreases |blocks|
  {
    if blocks == [] then Split(0, [])
    else
      WireFirst(blocks);
      var first := Frame(blocks[0]);
      if n < |first| then Split(0, first[..n])
      else
        var later := SplitAt(blocks[1..], n - |first|);
        Split(later.whole + 1, later.tail)
  }

  /** The first `n` bytes are the whole frames and the tail, which begins the frame after them. */
  predicate Splits(blocks: seq<seq<Byte>>, n: nat, c: Split)
    requires Sendables(blocks) && n <= |Wire(blocks)|
  {
    && c.whole <= |blocks| && Wire(blocks)[..n] == Wire(blocks[..c.whole]) + c.tail
    && c.tail + Wire(blocks)[n..] == Wire(blocks[c.whole..])
    && (if c.whole == |blocks| then c.tail == [] else Begins(c.tail, blocks[c.whole]))
  }

  lemma OneMoreWhole(blocks: seq<seq<Byte>>, n: nat, c: Split)
    requires Sendables(blocks) && blocks != [] && Sendables(blocks[1..])
    requires n <= |Wire(blocks[1..])| && Splits(blocks[1..], n, c)
    requires Wire(blocks) == Frame(blocks[0]) + Wire(blocks[1..])
    ensures Splits(blocks, n + |Frame(blocks[0])|, Split(c.whole + 1, c.tail))
  {
    hide Frame, Wire;
    var first, w, k := Frame(blocks[0]), Wire(blocks), c.whole + 1;
    assert w[..n + |first|] == first + Wire(blocks[1..])[..n];
    assert w[n + |first|..] == Wire(blocks[1..])[n..];
    assert blocks[..k][0] == blocks[0] && blocks[..k][1..] == blocks[1..][..c.whole];
    assert blocks[k..] == blocks[1..][c.whole..];
    WireFirst(blocks[..k]);
  }

  lemma {:induction false} SplitIsExact(blocks: seq<seq<Byte>>, n: nat)
    requires Sendables(blocks) && n <= |Wire(blocks)|
    ensures var c := SplitAt(blocks, n);
            && c.whole <= |blocks| && Wire(blocks)[..n] == Wire(blocks[..c.whole]) + c.tail
            && c.tail + Wire(blocks)[n..] == Wire(blocks[c.whole..])
            && (if c.whole == |blocks| then c.tail == [] else Begins(c.tail, blocks[c.whole]))
    decreases |blocks|
  {
    hide Frame;
    if blocks != [] {
      var first, w := Frame(blocks[0]), Wire(blocks);
      WireFirst(blocks);
      if n < |first| {
        assert blocks[..0] == [] && blocks[0..] == blocks;
        assert w[..n] == first[..n] && first[..n] + w[n..] == w;
        assert Sendable(blocks[0]);
      } else {
        SplitIsExact(blocks[1..], n - |first|);
        OneMoreWhole(blocks, n - |first|, SplitAt(blocks[1..], n - |first|));
      }
    }
  }
}
