/** The file transfer of one socket: the queue of files to send, the handlers of requests and
    answers 10 and 11, and the blocks of file data. */
module FileTransfer {
  import opened Messages

  const FILE_BLOCK: nat := 16384

  /** A file to send: its path here, and directory and name over there. */
  datatype Task = Task(path: string, dir: string, name: string)

  /** file_data_dev: the part of a file still to be sent, or the file being received. */
  datatype Device = Closed | Reading(left: seq<Byte>) | Writing(path: string)

  /** A piece of a file that fits into a block. */
  type Piece = s: seq<Byte> | |s| < MAX_BLOCK

  /** What is sent: a protocol message or a block of file data. */
  datatype Parcel = Text(message: Message) | Binary(bytes: Piece)

  /** fileReceivingDone_signal. */
  datatype Receipt = Receipt(path: string, ok: bool)

  /** What the host supplies: getMD5 of a content, the path under which an incoming file is
      stored, and whether its name is allowed and it can be opened for writing. */
  datatype Host = Host(digest: seq<Byte> -> string, place: (string, string) -> string, writable: string -> bool)

  /** `files` is the disk, `sent` and `received` are histories. */
  datatype Endpoint = Endpoint(files: map<string, seq<Byte>>, busy: bool, queue: seq<Task>, device: Device,
                               current: string, sent: seq<Parcel>, received: seq<Receipt>)

  function Say(e: Endpoint, m: Message): Endpoint {
    e.(sent := e.sent + [Text(m)])
  }

  function DigestOf(h: Host, e: Endpoint, path: string): string {
    if path in e.files then h.digest(e.files[path]) else ""
  }

  // ---- sending ----------------------------------------------------------------------

  function RequestFor(files: map<string, seq<Byte>>, t: Task): Message
    requires t.path in files
  {
    FileRequest(t.name, t.dir, |files[t.path]|)
  }

  /** prepareForSendFileToRemoteHost: the form of sendFile for one file. */
  function Prepare(e: Endpoint, t: Task): (f: Endpoint)
    ensures f.files == e.files && f.received == e.received && |f.queue| <= |e.queue| + 1 && e.sent <= f.sent
    decreases |e.queue|, 1
  {
    if e.busy then e.(queue := e.queue + [t])
    else if t.path !in e.files then CheckQueue(e.(device := Closed, current := ""))
    else Say(e.(busy := true, device := Reading(e.files[t.path]), current := t.path), RequestFor(e.files, t))
  }

  /** checkFileSendingQueue. */
  function CheckQueue(e: Endpoint): (f: Endpoint)
    ensures f.files == e.files && f.received == e.received && |f.queue| <= |e.queue| && e.sent <= f.sent
    decreases |e.queue|, 0
  {
    if e.busy || e.queue == [] then e else Prepare(e.(queue := e.queue[1..]), e.queue[0])
  }

  /** The forms of sendFile for many files. */
  function PrepareAll(e: Endpoint, ts: seq<Task>): Endpoint {
    CheckQueue(e.(queue := e.queue + ts))
  }

  /** The pieces a file is read in. */
  function Cut(bytes: seq<Byte>): seq<Piece> {
    if bytes == [] then []
    else if |bytes| <= FILE_BLOCK then [bytes]
    else [bytes[..FILE_BLOCK]] + Cut(bytes[FILE_BLOCK..])
  }

  function Binaries(chunks: seq<Piece>): (ps: seq<Parcel>)
    ensures |ps| == |chunks|
    ensures forall i :: 0 <= i < |chunks| ==> ps[i] == Binary(chunks[i])
  {
    if chunks == [] then [] else [Binary(chunks[0])] + Binaries(chunks[1..])
  }

  /** sendBinaryDataToRemoteHost and sendFileRemoteHostDone. */
  function SendBinary(h: Host, e: Endpoint): Endpoint {
    if e.device.Closed? then e
    else
      var left := if e.device.Reading? then e.device.left else [];
      Say(e.(sent := e.sent + Binaries(Cut(left)), device := Closed), CheckRequest(DigestOf(h, e, e.current)))
  }

  /** sendFileRemoteHostReady: answer 10. */
  function RemoteReady(h: Host, e: Endpoint, status: int): Endpoint {
    if status != 1 then CheckQueue(e.(device := Closed, busy := false)) else SendBinary(h, e)
  }

  /** sendFileRemoteHostDoneCheck: answer 11. */
  function RemoteChecked(e: Endpoint, status: int): Endpoint {
    var f := e.(device := Closed, busy := false);
    if status != 1 then f else CheckQueue(f.(current := ""))
  }

  // ---- receiving --------------------------------------------------------------------

  /** receiveFileRequestFromRemoteHost: request 10. */
  function ReceiveRequest(h: Host, e: Endpoint, name: string, dir: string): Endpoint {
    var path := h.place(dir, name);
    if !h.writable(path) then
      var f := Say(e.(device := Closed, busy := false, current := path), FileAnswer(0));
      CheckQueue(f.(received := f.received + [Receipt(path, false)]))
    else
      Say(e.(files := e.files[path := []], device := Writing(path), busy := true, current := path), FileAnswer(1))
  }

  /** A block of file data; without a file open for writing it is dropped. */
  function ReceiveBinary(e: Endpoint, bytes: seq<Byte>): Endpoint {
    if e.device.Writing? && e.device.path in e.files then
      e.(files := e.files[e.device.path := e.files[e.device.path] + bytes])
    else e
  }

  /** receiveFileFromRemoteHostDone: request 11. */
  function ReceiveDone(h: Host, e: Endpoint, md5: string): Endpoint {
    var ok := md5 == DigestOf(h, e, e.current);
    var f := if ok then e else e.(files := e.files - {e.current});
    var g := Say(f.(device := Closed, busy := false, current := ""), CheckAnswer(if ok then 1 else 0));
    CheckQueue(g.(received := g.received + [Receipt(e.current, ok)]))
  }

  /** Messages of other kinds go to the owner of the socket. */
  function Handle(h: Host, e: Endpoint, p: Parcel): Endpoint {
    match p
    case Text(FileRequest(name, dir, _)) => ReceiveRequest(h, e, name, dir)
    case Text(FileAnswer(status)) => RemoteReady(h, e, status)
    case Text(CheckRequest(md5)) => ReceiveDone(h, e, md5)
    case Text(CheckAnswer(status)) => RemoteChecked(e, status)
    case Text(Other(_)) => e
    case Binary(bytes) => ReceiveBinary(e, bytes)
  }

  // ---- the queue is first in, first out ---------------------------------------------

  /** What a sender sees. */
  datatype Event =
    | SendFile(task: Task)
    | SendFiles(tasks: seq<Task>)
    | AnswerReady(status: int)
    | AnswerChecked(status: int)

  function React(h: Host, e: Endpoint, v: Event): Endpoint {
    match v
    case SendFile(t) => Prepare(e, t)
    case SendFiles(ts) => PrepareAll(e, ts)
    case AnswerReady(status) => RemoteReady(h, e, status)
    case AnswerChecked(status) => RemoteChecked(e, status)
  }

  function ReactAll(h: Host, e: Endpoint, vs: seq<Event>): Endpoint
    decreases |vs|
  {
    if vs == [] then e else ReactAll(h, React(h, e, vs[0]), vs[1..])
  }

  function Wanted(v: Event): seq<Task> {
    match v case SendFile(t) => [t] case SendFiles(ts) => ts case _ => []
  }

  function Requested(vs: seq<Event>): seq<Task> {
    if vs == [] then [] else Wanted(vs[0]) + Requested(vs[1..])
  }

  /** The announcements, request 10, among what was sent. */
  function Announcements(ps: seq<Parcel>): seq<Message> {
    if ps == [] then []
    else
      var p := ps[|ps| - 1];
      Announcements(ps[..|ps| - 1]) + (if p.Text? && p.message.FileRequest? then [p.message] else [])
  }

  /** The announcements a list of tasks calls for: files that cannot be opened are left out. */
  function Requests(files: map<string, seq<Byte>>, ts: seq<Task>): seq<Message> {
    if ts == [] then []
    else (if ts[0].path in files then [RequestFor(files, ts[0])] else []) + Requests(files, ts[1..])
  }

  /** Nothing waits unless a transfer is going on. */
  predicate Moving(e: Endpoint) {
    e.queue != [] ==> e.busy
  }

  /** Everything announced or still to be announced. */
  function Account(e: Endpoint): seq<Message> {
    Announcements(e.sent) + Requests(e.files, e.queue)
  }

  lemma {:induction false} RequestsOfTwo(files: map<string, seq<Byte>>, a: seq<Task>, b: seq<Task>)
    ensures Requests(files, a + b) == Requests(files, a) + Requests(files, b)
  {
    if a == [] {
      assert a + b == b;
    } else {
      RequestsOfTwo(files, a[1..], b);
      assert (a + b)[1..] == a[1..] + b;
    }
  }

  lemma NotAnnounced(ps: seq<Parcel>, p: Parcel)
    requires p.Binary?
    ensures Announcements(ps + [p]) == Announcements(ps)
  {
    assert (ps + [p])[..|ps|] == ps;
  }

  lemma {:induction false} NoAnnouncements(ps: seq<Parcel>, chunks: seq<Piece>)
    ensures Announcements(ps + Binaries(chunks)) == Announcements(ps)
    decreases |chunks|
  {
    hide Announcements;
    if chunks == [] {
      assert ps + Binaries(chunks) == ps;
    } else {
      var first := ps + [Binary(chunks[0])];
      NotAnnounced(ps, Binary(chunks[0]));
      NoAnnouncements(first, chunks[1..]);
      assert ps + Binaries(chunks) == first + Binaries(chunks[1..]);
    }
  }

  lemma Announced(ps: seq<Parcel>, m: Message)
    ensures Announcements(ps + [Text(m)]) == Announcements(ps) + (if m.FileRequest? then [m] else [])
  {
    assert (ps + [Text(m)])[..|ps|] == ps;
  }

  /** Looking at the queue announces the first file that can be opened and moves no other. */
  lemma {:induction false} CheckQueueAccounts(e: Endpoint)
    ensures Moving(CheckQueue(e)) && Account(CheckQueue(e)) == Account(e)
    decreases |e.queue|
  {
    if !e.busy && e.queue != [] {
      var t, rest := e.queue[0], e.(queue := e.queue[1..]);
      if t.path in e.files {
        Announced(e.sent, RequestFor(e.files, t));
        assert Account(CheckQueue(e)) ==
          (Announcements(e.sent) + [RequestFor(e.files, t)]) + Requests(e.files, rest.queue);
      } else {
        CheckQueueAccounts(rest.(device := Closed, current := ""));
      }
    }
  }

  /** A single file asked for is not announced before files that wait: something is being
      sent, the file cannot be opened, or the waiting files have the same announcement. */
  predicate InTurn(e: Endpoint, v: Event) {
    v.SendFile? && !e.busy && v.task.path in e.files ==>
      forall i :: 0 <= i < |e.queue| && e.queue[i].path in e.files ==>
        RequestFor(e.files, e.queue[i]) == RequestFor(e.files, v.task)
  }

  lemma {:induction false} RequestsAllSame(files: map<string, seq<Byte>>, ts: seq<Task>, m: Message)
    ensures [m] + Requests(files, ts) == Requests(files, ts) + [m] <==>
            forall i :: 0 <= i < |ts| && ts[i].path in files ==> RequestFor(files, ts[i]) == m
    decreases |ts|
  {
    if ts != [] {
      var rest := Requests(files, ts[1..]);
      RequestsAllSame(files, ts[1..], m);
      assert forall i :: 0 < i < |ts| ==> ts[i] == ts[1..][i - 1];
      if ts[0].path in files {
        var x := RequestFor(files, ts[0]);
        Commutes(m, x, rest);
      } else {
        assert Requests(files, ts) == rest;
      }
    }
  }

  lemma Commutes(m: Message, x: Message, rest: seq<Message>)
    ensures [m] + ([x] + rest) == ([x] + rest) + [m] <==> x == m && [m] + rest == rest + [m]
  {
    var a, b := [m] + ([x] + rest), ([x] + rest) + [m];
    if a == b {
      assert a[0] == b[0];
      assert a[1..] == [x] + rest && b[1..] == rest + [m];
    }
  }

  lemma {:induction false} AnnouncedAccount(e: Endpoint, t: Task)
    requires !e.busy && t.path in e.files
    ensures Account(Prepare(e, t)) ==
            Announcements(e.sent) + ([RequestFor(e.files, t)] + Requests(e.files, e.queue))
    ensures Requests(e.files, [t]) == [RequestFor(e.files, t)]
  {
    var m := RequestFor(e.files, t);
    assert [t][1..] == [] && [m] + [] == [m];
    assert Requests(e.files, []) == [];
    Announced(e.sent, m);
    hide Requests, Announcements;
    assert Account(Prepare(e, t)) == Announcements(e.sent + [Text(m)]) + Requests(e.files, e.queue);
  }

  /** A single file announced at once: the files that wait are overtaken. */
  lemma {:induction false} AnnounceAccounts(e: Endpoint, t: Task)
    requires !e.busy && t.path in e.files
    ensures Account(Prepare(e, t)) == Account(e) + Requests(e.files, [t]) <==> InTurn(e, SendFile(t))
  {
    hide Requests, Announcements, Prepare;
    var m, sent, waiting := RequestFor(e.files, t), Announcements(e.sent), Requests(e.files, e.queue);
    AnnouncedAccount(e, t);
    RequestsAllSame(e.files, e.queue, m);
    assert Account(e) + [m] == sent + (waiting + [m]);
    SamePrefix(sent, [m] + waiting, waiting + [m]);
  }

  lemma {:induction false} PrepareAccounts(e: Endpoint, t: Task)
    ensures Account(Prepare(e, t)) == Account(e) + Requests(e.files, [t]) <==> InTurn(e, SendFile(t))
    ensures Moving(Prepare(e, t))
  {
    if e.busy {
      RequestsOfTwo(e.files, e.queue, [t]);
    } else if t.path in e.files {
      hide Account, Requests;
      AnnounceAccounts(e, t);
    } else {
      CheckQueueAccounts(e.(device := Closed, current := ""));
      assert Requests(e.files, [t]) == [];
    }
  }

  lemma SamePrefix(a: seq<Message>, b: seq<Message>, c: seq<Message>)
    ensures a + b == a + c <==> b == c
  {
    if a + b == a + c { assert (a + b)[|a|..] == b && (a + c)[|a|..] == c; }
  }

  lemma SendBinaryAccounts(h: Host, e: Endpoint)
    ensures SendBinary(h, e).files == e.files && Account(SendBinary(h, e)) == Account(e)
    ensures Moving(SendBinary(h, e)) == Moving(e)
  {
    hide Announcements, Requests, Binaries, Cut;
    if !e.device.Closed? {
      var left := if e.device.Reading? then e.device.left else [];
      NoAnnouncements(e.sent, Cut(left));
      Announced(e.sent + Binaries(Cut(left)), CheckRequest(DigestOf(h, e, e.current)));
    }
  }

  lemma ReactAccounts(h: Host, e: Endpoint, v: Event)
    ensures React(h, e, v).files == e.files
    ensures Account(React(h, e, v)) == Account(e) + Requests(e.files, Wanted(v)) <==> InTurn(e, v)
  {
    hide SendBinary, Prepare, CheckQueue;
    match v
    case SendFile(t) =>
      PrepareAccounts(e, t);
    case SendFiles(ts) =>
      RequestsOfTwo(e.files, e.queue, ts);
      CheckQueueAccounts(e.(queue := e.queue + ts));
    case AnswerReady(status) =>
      SendBinaryAccounts(h, e);
      CheckQueueAccounts(e.(device := Closed, busy := false));
    case AnswerChecked(_) =>
      CheckQueueAccounts(e.(device := Closed, busy := false, current := ""));
  }

  /** Over a whole run no file is asked for out of turn. */
  predicate AllInTurn(h: Host, e: Endpoint, vs: seq<Event>)
    decreases |vs|
  {
    vs == [] || (InTurn(e, vs[0]) && AllInTurn(h, React(h, e, vs[0]), vs[1..]))
  }

  /** After each event of the run, `base` and the files asked for since are the files
      announced followed by those waiting. */
  predicate FifoThroughout(h: Host, e: Endpoint, vs: seq<Event>, base: seq<Message>)
    decreases |vs|
  {
    Account(e) == base &&
    (vs == [] || FifoThroughout(h, React(h, e, vs[0]), vs[1..], base + Requests(e.files, Wanted(vs[0]))))
  }

  /** Over every run of a sender, with any answers: the files announced followed by those still
      queued are at all times the openable files asked for, in order and each once, exactly if
      no file is asked for out of turn. */
  lemma {:induction false} QueueIsFifoIff(h: Host, e: Endpoint, vs: seq<Event>)
    ensures FifoThroughout(h, e, vs, Account(e)) <==> AllInTurn(h, e, vs)
    decreases |vs|
  {
    hide React, Account, Requests, InTurn;
    if vs != [] {
      ReactAccounts(h, e, vs[0]);
      QueueIsFifoIff(h, React(h, e, vs[0]), vs[1..]);
    }
  }

  lemma {:induction false} FifoAtTheEnd(h: Host, e: Endpoint, vs: seq<Event>, base: seq<Message>)
    requires FifoThroughout(h, e, vs, base)
    ensures Account(ReactAll(h, e, vs)) == base + Requests(e.files, Requested(vs))
    decreases |vs|
  {
    hide React, Account;
    if vs == [] {
      assert Requested(vs) == [] && Requests(e.files, []) == [];
    } else {
      ReactAccounts(h, e, vs[0]);
      FifoAtTheEnd(h, React(h, e, vs[0]), vs[1..], base + Requests(e.files, Wanted(vs[0])));
      RequestsOfTwo(e.files, Wanted(vs[0]), Requested(vs[1..]));
    }
  }

  /** The events after which files may wait while nothing is sent: a failed check, and a
      further go-ahead that finds it so. */
  lemma WaitsIff(h: Host, e: Endpoint, v: Event)
    ensures Moving(React(h, e, v)) <==>
            !(v.AnswerChecked? && v.status != 1 && e.queue != []) && (v == AnswerReady(1) ==> Moving(e))
  {
    hide SendBinary, Prepare, CheckQueue;
    match v
    case SendFile(t) => PrepareAccounts(e, t);
    case SendFiles(ts) => CheckQueueAccounts(e.(queue := e.queue + ts));
    case AnswerReady(status) =>
      SendBinaryAccounts(h, e);
      CheckQueueAccounts(e.(device := Closed, busy := false));
    case AnswerChecked(_) =>
      CheckQueueAccounts(e.(device := Closed, busy := false, current := ""));
  }

  predicate ChecksSucceed(vs: seq<Event>) {
    forall i :: 0 <= i < |vs| && vs[i].AnswerChecked? ==> vs[i].status == 1
  }

  lemma {:induction false} MovingIsInTurn(h: Host, e: Endpoint, vs: seq<Event>)
    requires Moving(e) && ChecksSucceed(vs)
    ensures AllInTurn(h, e, vs) && Moving(ReactAll(h, e, vs))
    decreases |vs|
  {
    hide React;
    if vs != [] {
      WaitsIff(h, e, vs[0]);
      MovingIsInTurn(h, React(h, e, vs[0]), vs[1..]);
    }
  }

  /** In particular that is so whenever all checks succeed; and then no file ever waits while
      nothing is being sent. */
  lemma QueueIsFifo(h: Host, e: Endpoint, vs: seq<Event>)
    requires Moving(e) && ChecksSucceed(vs)
    ensures Moving(ReactAll(h, e, vs))
    ensures Account(ReactAll(h, e, vs)) == Account(e) + Requests(e.files, Requested(vs))
  {
    MovingIsInTurn(h, e, vs);
    QueueIsFifoIff(h, e, vs);
    FifoAtTheEnd(h, e, vs, Account(e));
  }

  /** The shortest run that fails: while one file is sent a second one is asked for, the check
      of the first fails, and a third one is asked for. */
  lemma FailedCheckBreaksFifo(h: Host, e: Endpoint, a: Task, b: Task, c: Task)
    requires !e.busy && e.queue == [] && a.path in e.files && b.path in e.files && c.path in e.files
    requires RequestFor(e.files, b) != RequestFor(e.files, c)
    ensures !FifoThroughout(h, e, [SendFile(a), SendFile(b), AnswerChecked(0), SendFile(c)], Account(e))
  {
    var vs := [SendFile(a), SendFile(b), AnswerChecked(0), SendFile(c)];
    assert vs[1..] == [SendFile(b), AnswerChecked(0), SendFile(c)];
    assert vs[1..][1..] == [AnswerChecked(0), SendFile(c)] && vs[1..][1..][1..] == [SendFile(c)];
    var e1 := React(h, e, SendFile(a));
    var e2 := React(h, e1, SendFile(b));
    var e3 := React(h, e2, AnswerChecked(0));
    assert e3.queue == [b] && !e3.busy && e3.files == e.files;
    assert !InTurn(e3, SendFile(c)) by { assert e3.queue[0] == b; }
    assert !AllInTurn(h, e3, [SendFile(c)]);
    assert !AllInTurn(h, e2, [AnswerChecked(0), SendFile(c)]);
    assert !AllInTurn(h, e1, vs[1..]);
    QueueIsFifoIff(h, e, vs);
  }

  /** After a failed check the files in the queue stay there until the next request.  One
      single file that can be opened goes before them; any other request, of one file or
      many, turns to the queue first. */
  lemma FileOvertakesIff(e: Endpoint, status: int, t: Task)
    requires status != 1 && e.queue != []
    ensures Prepare(RemoteChecked(e, status), t).queue == e.queue <==> t.path in e.files
    ensures t.path in e.files ==>
      Announcements(Prepare(RemoteChecked(e, status), t).sent) == Announcements(e.sent) + [RequestFor(e.files, t)]
    ensures t.path !in e.files ==>
      Moving(Prepare(RemoteChecked(e, status), t)) && Account(Prepare(RemoteChecked(e, status), t)) == Account(e)
  {
    var g := RemoteChecked(e, status);
    if t.path in e.files {
      Announced(e.sent, RequestFor(e.files, t));
    } else {
      var f := g.(device := Closed, current := "");
      CheckQueueAccounts(f);
      assert Prepare(g, t) == CheckQueue(f) == Prepare(f.(queue := f.queue[1..]), f.queue[0]);
      QueueShrinks(f);
    }
  }

  lemma QueueShrinks(e: Endpoint)
    requires !e.busy && e.queue != []
    ensures |CheckQueue(e).queue| < |e.queue|
  {
    var f := e.(queue := e.queue[1..]);
    if e.queue[0].path !in e.files {
      assert CheckQueue(e) == CheckQueue(f.(device := Closed, current := ""));
    }
  }
}
