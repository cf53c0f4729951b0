/** The socket as the program runs it: fields changed step by step, and every method tied to
    the functions of modules Framing, FileTransfer and Delivery. */
module Socket {
  import opened Wrappers
  import opened Messages
  import opened Framing
  import opened FileTransfer
  import opened Delivery
  import opened Wires

  lemma {:induction false} HexBound(h: seq<Byte>)
    ensures HexValue(h).Some? ==> HexValue(h).value < Power16(|h|)
  {
    if h != [] { HexBound(h[..|h| - 1]); }
  }

  lemma HeaderBound(h: seq<Byte>)
    requires |h| == 4
    ensures ParseHex(h) <= MAX_BLOCK
  {
    HexBound(h);
    assert Power16(4) == 0x10000;
  }

  lemma {:induction false} ReadExtends(parse: Parser, r: Reader)
    requires Sound(r)
    ensures r.blocks <= Read(parse, r).blocks
    decreases |r.pending|, r.blockSize != 0
  {
    if r.blockSize != 0 || |r.pending| >= 4 {
      var t := TakeBytes(TakeHeader(r));
      if |t.got| != 0 && |t.got| >= t.blockSize {
        if Skipped(parse, t.got, t.lastId) {
          ReadExtends(parse, t.(blockSize := 0, got := []));
          ReadExtends(parse, Read(parse, t.(blockSize := 0, got := [])).(blockSize := 0, got := []));
        } else {
          ReadExtends(parse, t.(blockSize := 0, got := [], lastId := IdAfter(parse, t.got, t.lastId),
                                blocks := t.blocks + [t.got]));
        }
      }
    }
  }

  lemma ReadsNothing(parse: Parser, r: Reader)
    requires r.blockSize == 0 && |r.pending| < 4
    ensures Read(parse, r) == r
  {
  }

  /** One turn of the reader. */
  lemma ReadTurn(parse: Parser, r: Reader)
    requires Sound(r) && (r.blockSize != 0 || |r.pending| >= 4)
    ensures var t := TakeBytes(TakeHeader(r));
            var s := t.(blockSize := 0, got := []);
            if |t.got| == 0 || |t.got| < t.blockSize then Read(parse, r) == t
            else if Skipped(parse, t.got, t.lastId) then
              Read(parse, r) == Read(parse, Read(parse, s).(blockSize := 0, got := []))
            else Read(parse, r) == Read(parse, Accept(parse, s, t.got))
  {
  }

  lemma {:induction false} HandleAllOfTwo(h: Host, e: Endpoint, a: seq<Parcel>, b: seq<Parcel>)
    ensures HandleAll(h, e, a + b) == HandleAll(h, HandleAll(h, e, a), b)
    decreases |a|
  {
    hide Handle;
    if a == [] {
      assert a + b == b;
    } else {
      HandleAllOfTwo(h, Handle(h, e, a[0]), a[1..], b);
      assert (a + b)[1..] == a[1..] + b;
    }
  }

  lemma {:induction false} ContentsOfTwo(parse: Parser, a: seq<seq<Byte>>, b: seq<seq<Byte>>)
    ensures Contents(parse, a + b) == Contents(parse, a) + Contents(parse, b)
    decreases |a|
  {
    hide Content;
    if a == [] {
      assert a + b == b;
    } else {
      assert (a + b)[1..] == a[1..] + b && (a + b)[0] == a[0];
      ContentsOfTwo(parse, a[1..], b);
      var first := match Content(parse, a[0]) case Some(p) => [p] case None => [];
      assert Contents(parse, a) == first + Contents(parse, a[1..]);
      assert Contents(parse, a + b) == first + (Contents(parse, a[1..]) + Contents(parse, b));
    }
  }

  /** What a socket makes of the blocks its reader hands over on the way from `r` to `t`. */
  function Effect(h: Host, parse: Parser, e: Endpoint, r: Reader, t: Reader): Endpoint {
    HandleAll(h, e, Contents(parse, NewBlocks(r, t)))
  }

  lemma NoEffect(h: Host, parse: Parser, e: Endpoint, r: Reader, t: Reader)
    requires r.blocks == t.blocks
    ensures Effect(h, parse, e, r, t) == e
  {
    assert NewBlocks(r, t) == [];
  }

  lemma EffectOfTwo(h: Host, parse: Parser, e: Endpoint, r: Reader, s: Reader, t: Reader)
    requires r.blocks <= s.blocks <= t.blocks
    ensures Effect(h, parse, e, r, t) == Effect(h, parse, Effect(h, parse, e, r, s), s, t)
  {
    assert NewBlocks(r, t) == NewBlocks(r, s) + NewBlocks(s, t);
    ContentsOfTwo(parse, NewBlocks(r, s), NewBlocks(s, t));
    HandleAllOfTwo(h, e, Contents(parse, NewBlocks(r, s)), Contents(parse, NewBlocks(s, t)));
  }

  /** The parcels of a list of blocks handled by a fresh sender, one more at the end. */
  lemma OneMore(printer: Printer, sent: seq<Parcel>, p: Parcel)
    ensures var c := CounterAfter(0, sent);
            && CounterAfter(0, sent + [p]) == IdFor(c, p)
            && Blocks(printer, 0, sent + [p]) == Blocks(printer, 0, sent) + BlockIfSent(printer, IdFor(c, p), p)
  {
    var c := CounterAfter(0, sent);
    BlocksOfTwo(printer, 0, sent, [p]);
    assert [p][1..] == [];
    assert Blocks(printer, c, [p]) == BlockIfSent(printer, IdFor(c, p), p) + Blocks(printer, IdFor(c, p), [p][1..]);
    assert CounterAfter(c, [p]) == CounterAfter(IdFor(c, p), [p][1..]);
  }

  lemma WireOneMore(blocks: seq<seq<Byte>>, b: seq<Byte>)
    requires Sendables(blocks) && Sendable(b)
    ensures Sendables(blocks + [b]) && Wire(blocks + [b]) == Wire(blocks) + Frame(b)
  {
    WireOfTwo(blocks, [b]);
    assert [b][1..] == [];
    assert Wire([b]) == Frame(b) + Wire([b][1..]);
  }

  class DiscompSocket {
    const printer: Printer
    const parse: Parser
    const host: Host

    var blockSize: nat
    var bytesAvailable: seq<Byte>
    var bytesAvailableRead: nat
    var receiveMsgId: int
    var sendMsgId: int

    /** What the TCP connection holds for reading and what has been written to it. */
    var incoming: seq<Byte>
    var written: seq<Byte>

    var disk: map<string, seq<Byte>>
    var busy: bool
    var queue: seq<Task>
    var device: Device
    var currentName: string

    /** Histories: parcels sent, blocks handed over, fileReceivingDone_signal. */
    ghost var sent: seq<Parcel>
    ghost var blocks: seq<seq<Byte>>
    ghost var receipts: seq<Receipt>

    /** What was written is what the parcels sent make of a fresh counter. */
    ghost predicate Valid()
      reads this
    {
      && written == Wire(Blocks(printer, 0, sent)) && sendMsgId == CounterAfter(0, sent)
      && blockSize <= MAX_BLOCK
    }

    /** The reader is between two of its steps. */
    ghost predicate ReaderValid()
      reads this
    {
      blockSize != 0 ==> |bytesAvailable| == blockSize && bytesAvailableRead <= blockSize
    }

    ghost function Input(): (r: Reader)
      requires ReaderValid()
      reads this
      ensures Sound(r)
    {
      Reader(blockSize, if blockSize == 0 then [] else bytesAvailable[..bytesAvailableRead],
             incoming, receiveMsgId, blocks)
    }

    /** The reader as if the current block were done with. */
    ghost function Rested(): Reader
      reads this
    {
      Reader(0, [], incoming, receiveMsgId, blocks)
    }

    ghost function State(): Endpoint
      reads this
    {
      Endpoint(disk, busy, queue, device, currentName, sent, receipts)
    }

    constructor (printer: Printer, parse: Parser, host: Host, disk: map<string, seq<Byte>>)
      ensures Valid() && ReaderValid() && Input() == Start
      ensures State() == Endpoint(disk, false, [], Closed, "", [], [])
      ensures this.printer == printer && this.parse == parse && this.host == host
    {
      this.printer, this.parse, this.host, this.disk := printer, parse, host, disk;
      blockSize, bytesAvailable, bytesAvailableRead := 0, [], 0;
      sendMsgId, receiveMsgId := 0, 0;
      incoming, written := [], [];
      busy, queue, device, currentName := false, [], Closed, "";
      sent, blocks, receipts := [], [], [];
    }

    // ---- sending ------------------------------------------------------------------------

    method SendDataToRemoteHost(m: Message)
      requires Valid()
      modifies `sendMsgId, `written, `sent
      ensures Valid() && sent == old(sent) + [Text(m)]
    {
      OneMore(printer, sent, Text(m));
      if sendMsgId > 32768 {
        sendMsgId := 0;
      }
      sendMsgId := sendMsgId + 1;
      var block := printer(Packet(sendMsgId, m));
      block := [TYPE_PROTOCOL] + block;
      sent := sent + [Text(m)];
      if |block| > 0xFFFF {
        assert BlockIfSent(printer, sendMsgId, Text(m)) == [];
        assert Blocks(printer, 0, old(sent)) + [] == Blocks(printer, 0, old(sent));
        return;
      }
      WireOneMore(Blocks(printer, 0, old(sent)), block);
      assert BlockIfSent(printer, sendMsgId, Text(m)) == [block];
      var size := Header(|block|);
      written := written + (size + block);
    }

    /** One turn of the loop over the file. */
    method SendBlock(piece: Piece)
      requires Valid()
      modifies `written, `sent
      ensures Valid() && sent == old(sent) + [Binary(piece)]
    {
      OneMore(printer, sent, Binary(piece));
      var block := [TYPE_BINARY] + piece;
      WireOneMore(Blocks(printer, 0, sent), block);
      assert BlockIfSent(printer, sendMsgId, Binary(piece)) == [block];
      var size := Header(|block|);
      written := written + (size + block);
      sent := sent + [Binary(piece)];
    }

    method SendBinaryDataToRemoteHost()
      requires Valid()
      modifies `sendMsgId, `written, `sent, `device
      ensures Valid() && State() == SendBinary(host, old(State()))
    {
      hide Wire, Blocks, CounterAfter, Cut, Binaries;
      if device.Closed? {
        return;
      }
      ghost var e := State();
      ghost var all := Binaries(Cut(if device.Reading? then device.left else []));
      var left := if device.Reading? then device.left else [];
      while left != []
        invariant Valid() && sent + Binaries(Cut(left)) == e.sent + all
        invariant State().(sent := e.sent) == e
        decreases |left|
      {
        var n := if |left| < FILE_BLOCK then |left| else FILE_BLOCK;
        ghost var before := sent;
        SendBlock(left[..n]);
        CutFirst(left, n);
        assert before + ([Binary(left[..n])] + Binaries(Cut(left[n..]))) == sent + Binaries(Cut(left[n..]));
        left := left[n..];
      }
      assert Binaries(Cut(left)) == [] by { NothingToCut(); }
      assert sent == e.sent + all;
      SendFileRemoteHostDone();
      device := Closed;
    }

    static lemma NothingToCut()
      ensures Binaries(Cut([])) == []
    {
    }

    static lemma CutFirst(left: seq<Byte>, n: nat)
      requires left != [] && n == if |left| < FILE_BLOCK then |left| else FILE_BLOCK
      ensures Binaries(Cut(left)) == [Binary(left[..n])] + Binaries(Cut(left[n..]))
    {
      if |left| <= FILE_BLOCK {
        assert left[..n] == left && left[n..] == [];
        assert Cut(left)[1..] == [] && Cut(left[n..]) == [];
      } else {
        assert Cut(left)[1..] == Cut(left[n..]);
      }
    }

    method GetMD5(path: string) returns (md5: string)
      ensures md5 == DigestOf(host, State(), path)
    {
      if path !in disk {
        return "";
      }
      return host.digest(disk[path]);
    }

    method SendFileRemoteHostDone()
      requires Valid()
      modifies `sendMsgId, `written, `sent
      ensures Valid() && sent == old(sent) + [Text(CheckRequest(DigestOf(host, old(State()), currentName)))]
    {
      var md5 := GetMD5(currentName);
      SendDataToRemoteHost(CheckRequest(md5));
    }

    // ---- the queue ----------------------------------------------------------------------

    method SendFile(t: Task)
      requires Valid()
      modifies `sendMsgId, `written, `sent, `busy, `queue, `device, `currentName
      ensures Valid() && State() == Prepare(old(State()), t)
    {
      PrepareForSendFileToRemoteHost(t);
    }

    method SendFiles(ts: seq<Task>)
      requires Valid()
      modifies `sendMsgId, `written, `sent, `busy, `queue, `device, `currentName
      ensures Valid() && State() == PrepareAll(old(State()), ts)
    {
      for i := 0 to |ts|
        invariant Valid() && State() == old(State()).(queue := old(queue) + ts[..i])
      {
        queue := queue + [ts[i]];
        assert ts[..i + 1] == ts[..i] + [ts[i]];
      }
      assert ts[..|ts|] == ts;
      CheckFileSendingQueue();
    }

    method PrepareForSendFileToRemoteHost(t: Task)
      requires Valid()
      modifies `sendMsgId, `written, `sent, `busy, `queue, `device, `currentName
      ensures Valid() && State() == Prepare(old(State()), t)
      decreases |queue|, 1
    {
      hide Wire, Blocks, CounterAfter;
      if busy {
        queue := queue + [t];
        return;
      }
      if t.path !in disk {
        busy := false;
        currentName := "";
        device := Closed;
        CheckFileSendingQueue();
        return;
      }
      device := Reading(disk[t.path]);
      var size := |disk[t.path]|;
      busy := true;
      currentName := t.path;
      SendDataToRemoteHost(FileRequest(t.name, t.dir, size));
    }

    method CheckFileSendingQueue()
      requires Valid()
      modifies `sendMsgId, `written, `sent, `busy, `queue, `device, `currentName
      ensures Valid() && State() == CheckQueue(old(State()))
      decreases |queue|, 0
    {
      if busy {
        return;
      }
      if |queue| > 0 {
        var t := queue[0];
        queue := queue[1..];
        PrepareForSendFileToRemoteHost(t);
      }
    }

    // ---- requests and answers of the transfer -------------------------------------------

    method ReceiveFileRequestFromRemoteHost(name: string, dir: string)
      requires Valid()
      modifies `sendMsgId, `written, `sent, `busy, `queue, `device, `currentName, `disk, `receipts
      ensures Valid() && State() == ReceiveRequest(host, old(State()), name, dir)
    {
      hide Wire, Blocks, CounterAfter, CheckQueue, Prepare;
      busy := true;
      currentName := host.place(dir, name);
      if !host.writable(currentName) {
        SendDataToRemoteHost(FileAnswer(0));
        device := Closed;
        busy := false;
        receipts := receipts + [Receipt(currentName, false)];
        CheckFileSendingQueue();
        return;
      }
      disk := disk[currentName := []];
      device := Writing(currentName);
      SendDataToRemoteHost(FileAnswer(1));
    }

    method SendFileRemoteHostReady(status: int)
      requires Valid()
      modifies `sendMsgId, `written, `sent, `busy, `queue, `device, `currentName
      ensures Valid() && State() == RemoteReady(host, old(State()), status)
    {
      if status != 1 {
        device := Closed;
        busy := false;
        CheckFileSendingQueue();
        return;
      }
      SendBinaryDataToRemoteHost();
    }

    method ReceiveFileFromRemoteHostDone(md5: string)
      requires Valid()
      modifies `sendMsgId, `written, `sent, `busy, `queue, `device, `currentName, `disk, `receipts
      ensures Valid() && State() == ReceiveDone(host, old(State()), md5)
    {
      hide Wire, Blocks, CounterAfter, CheckQueue, Prepare;
      device := Closed;
      busy := false;
      var mine := GetMD5(currentName);
      if md5 != mine {
        disk := disk - {currentName};
        SendDataToRemoteHost(CheckAnswer(0));
        receipts := receipts + [Receipt(currentName, false)];
      } else {
        SendDataToRemoteHost(CheckAnswer(1));
        receipts := receipts + [Receipt(currentName, true)];
      }
      currentName := "";
      CheckFileSendingQueue();
    }

    method SendFileRemoteHostDoneCheck(status: int)
      requires Valid()
      modifies `sendMsgId, `written, `sent, `busy, `queue, `device, `currentName
      ensures Valid() && State() == RemoteChecked(old(State()), status)
    {
      device := Closed;
      busy := false;
      if status != 1 {
        return;
      }
      currentName := "";
      CheckFileSendingQueue();
    }

    /** processRequestFromRemoteHost and processAnswerFromRemoteHost. */
    method ProcessMessage(m: Message)
      requires Valid()
      modifies `sendMsgId, `written, `sent, `busy, `queue, `device, `currentName, `disk, `receipts
      ensures Valid() && State() == Handle(host, old(State()), Text(m))
    {
      match m
      case FileRequest(name, dir, _) => ReceiveFileRequestFromRemoteHost(name, dir);
      case CheckRequest(md5) => ReceiveFileFromRemoteHostDone(md5);
      case FileAnswer(status) => SendFileRemoteHostReady(status);
      case CheckAnswer(status) => SendFileRemoteHostDoneCheck(status);
      case Other(_) =>
    }

    method WriteBinary(bytes: Piece)
      requires Valid()
      modifies `disk
      ensures Valid() && State() == Handle(host, old(State()), Binary(bytes))
    {
      if device.Writing? && device.path in disk {
        disk := disk[device.path := disk[device.path] + bytes];
      }
    }

    // ---- receiving ----------------------------------------------------------------------

    /** readyRead: the connection holds more bytes. */
    method ReadyRead(bytes: seq<Byte>)
      requires Valid() && ReaderValid()
      modifies this
      ensures Valid() && ReaderValid()
      ensures Input() == Deliver(parse, old(Input()), bytes)
      ensures State() == Effect(host, parse, old(State()), old(Input()), Input())
    {
      incoming := incoming + bytes;
      ReadDataFromRemoteHost();
    }

    /** Takes the header if none is known, and bytes of the block. */
    method ReadPart()
      requires Valid() && ReaderValid() && (blockSize != 0 || |incoming| >= 4)
      modifies `blockSize, `bytesAvailable, `bytesAvailableRead, `incoming
      ensures Valid() && ReaderValid() && Input() == TakeBytes(TakeHeader(old(Input())))
      ensures bytesAvailableRead == |Input().got|
      ensures if old(blockSize) == 0 then |incoming| < |old(incoming)| else |incoming| <= |old(incoming)|
    {
      hide Wire, Blocks, CounterAfter, ParseHex;
      ghost var r := Input();
      if blockSize == 0 {
        HeaderBound(incoming[..4]);
        blockSize := ParseHex(incoming[..4]);
        incoming := incoming[4..];
        bytesAvailable := seq(blockSize, _ => 0);
        bytesAvailableRead := 0;
      }
      assert Input() == TakeHeader(r);
      var count := if blockSize > |incoming| + bytesAvailableRead then |incoming| else blockSize - bytesAvailableRead;
      var bytes := incoming[..count];
      incoming := incoming[count..];
      ghost var got := bytesAvailable[..bytesAvailableRead];
      bytesAvailable := bytesAvailable[..bytesAvailableRead] + bytes + bytesAvailable[bytesAvailableRead + count..];
      bytesAvailableRead := bytesAvailableRead + count;
      assert bytesAvailable[..bytesAvailableRead] == got + bytes;
    }

    /** Hands the complete block over. */
    method HandOver()
      requires Valid() && ReaderValid() && 0 < blockSize == bytesAvailableRead
      modifies this
      ensures Valid()
      ensures var t := old(Input());
              if Skipped(parse, t.got, t.lastId)
              then ReaderValid() && Input() == Read(parse, t.(blockSize := 0, got := []))
              else Rested() == Accept(parse, t.(blockSize := 0, got := []), t.got)
      ensures old(blocks) <= blocks
      ensures State() == Effect(host, parse, old(State()), old(Input()), Rested())
      ensures |incoming| <= old(|incoming|)
      decreases |incoming|, 0, 2
    {
      hide Wire, Blocks, CounterAfter, Handle, Effect, Read;
      ghost var t, e := Input(), State();
      assert t.got == bytesAvailable && Rested() == t.(blockSize := 0, got := []);
      var requestType := bytesAvailable[0];
      if requestType == TYPE_PROTOCOL || requestType == TYPE_BINARY {
        bytesAvailable := bytesAvailable[1..];
      }
      if requestType == TYPE_PROTOCOL {
        ReadExtends(parse, Rested());
        SameBlocks(host, parse, e, t, Rested());
        ProcessDataFromRemoteHost(bytesAvailable, t.got);
      } else {
        blocks := blocks + [t.got];
        if requestType == TYPE_BINARY {
          WriteBinary(bytesAvailable);
        }
        OneBlock(host, parse, e, t, Rested());
      }
    }

    static lemma SameBlocks(h: Host, parse: Parser, e: Endpoint, t: Reader, r: Reader)
      requires t.blocks == r.blocks
      ensures forall s :: Effect(h, parse, e, t, s) == Effect(h, parse, e, r, s)
      ensures forall s :: Effect(h, parse, e, s, t) == Effect(h, parse, e, s, r)
    {
    }

    method ReadDataFromRemoteHost()
      requires Valid() && ReaderValid()
      modifies this
      ensures Valid() && ReaderValid()
      ensures Input() == Read(parse, old(Input()))
      ensures State() == Effect(host, parse, old(State()), old(Input()), Input())
      decreases |incoming|, if blockSize != 0 then 1 else 0, 0
    {
      hide Wire, Blocks, CounterAfter, Effect, Read, ParseHex, Skipped, IdAfter;
      ghost var r, e := Input(), State();
      if blockSize == 0 && |incoming| < 4 {
        NoEffect(host, parse, e, r, r);
        ReadsNothing(parse, r);
        return;
      }
      ReadTurn(parse, r);
      ReadPart();
      ghost var t := Input();
      NoEffect(host, parse, e, r, t);
      if bytesAvailableRead <= 0 || bytesAvailableRead < blockSize {
        return;
      }
      assert r.blocks == t.blocks;
      SameBlocks(host, parse, e, t, r);
      HandOver();
      ghost var s := Rested();
      bytesAvailable := [];
      blockSize := 0;
      ReadExtends(parse, s);
      ReadDataFromRemoteHost();
      EffectOfTwo(host, parse, e, r, s, Input());
    }

    /** One block handed over that is not skipped. */
    static lemma OneBlock(h: Host, parse: Parser, e: Endpoint, t: Reader, s: Reader)
      requires s.blocks == t.blocks + [t.got]
      ensures Effect(h, parse, e, t, s) == match Content(parse, t.got) case Some(p) => Handle(h, e, p) case None => e
    {
      assert NewBlocks(t, s) == [t.got];
      assert [t.got][1..] == [];
      match Content(parse, t.got)
      case Some(p) =>
        assert Contents(parse, [t.got]) == [p] && [p][1..] == [];
        assert HandleAll(h, e, [p]) == HandleAll(h, Handle(h, e, p), [p][1..]);
      case None =>
        assert Contents(parse, [t.got]) == [];
    }

    /** A message that is skipped reads on from here. */
    method ProcessDataFromRemoteHost(text: seq<Byte>, ghost block: seq<Byte>)
      requires Valid() && block == [TYPE_PROTOCOL] + text && |block| <= MAX_BLOCK
      modifies this
      ensures Valid()
      ensures Skipped(parse, block, old(receiveMsgId)) ==> ReaderValid() && Input() == Read(parse, old(Rested()))
      ensures !Skipped(parse, block, old(receiveMsgId)) ==>
        Rested() == old(Rested()).(lastId := IdAfter(parse, block, old(receiveMsgId)), blocks := old(blocks) + [block])
      ensures State() == Effect(host, parse, old(State()), old(Rested()), Rested())
      ensures old(blocks) <= blocks && |incoming| <= old(|incoming|)
      decreases |incoming|, 0, 1
    {
      hide Wire, Blocks, CounterAfter, Effect, Read, Handle;
      assert block[1..] == text;
      ghost var e, r := State(), Rested();
      ReadExtends(parse, r);
      var packet := parse(text);
      if packet.None? {
        blockSize := 0;
        ReadDataFromRemoteHost();
        SameBlocks(host, parse, e, Input(), Rested());
        return;
      }
      if packet.value.id <= receiveMsgId && packet.value.id > 1 {
        blockSize := 0;
        ReadDataFromRemoteHost();
        SameBlocks(host, parse, e, Input(), Rested());
        return;
      }
      receiveMsgId := packet.value.id;
      blocks := blocks + [block];
      ProcessMessage(packet.value.message);
      assert Content(parse, block) == Some(Text(packet.value.message));
      OneBlock(host, parse, e, r.(got := block), Rested());
      SameBlocks(host, parse, e, r.(got := block), r);
    }
  }
}
