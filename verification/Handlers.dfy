/** What the handlers of the file transfer send and keep, said of the fields of a socket. */
module Handlers {
  import opened Messages
  import opened FileTransfer
  import opened Transfers

  // ---- the queue --------------------------------------------------------------------

  /** The first file of the queue that can be opened. */
  predicate FirstOpen(e: Endpoint, k: int) {
    0 <= k < |e.queue| && e.queue[k].path in e.files && forall i :: 0 <= i < k ==> e.queue[i].path !in e.files
  }

  /** File `t` is announced, with its name and directory over there and its size, and open for
      reading; files `queue` wait. */
  predicate Announces(e: Endpoint, f: Endpoint, t: Task, queue: seq<Task>) {
    && t.path in e.files
    && f == e.(busy := true, queue := queue, device := Reading(e.files[t.path]), current := t.path,
               sent := e.sent + [Text(FileRequest(t.name, t.dir, |e.files[t.path]|))])
  }

  /** Looking at the queue of a free socket. */
  lemma {:induction false} QueueMeans(e: Endpoint)
    requires !e.busy
    ensures var f := CheckQueue(e);
            && (forall k :: FirstOpen(e, k) ==> Announces(e, f, e.queue[k], e.queue[k + 1..]))
            && ((forall k :: !FirstOpen(e, k)) ==>
                  f == e.(queue := [], device := if e.queue == [] then e.device else Closed,
                          current := if e.queue == [] then e.current else ""))
    decreases |e.queue|
  {
    if e.queue != [] {
      var t, rest := e.queue[0], e.(queue := e.queue[1..]);
      if t.path in e.files {
        assert FirstOpen(e, 0);
        assert Announces(e, CheckQueue(e), t, e.queue[1..]);
        forall k | FirstOpen(e, k) ensures k == 0 {}
      } else {
        var next := rest.(device := Closed, current := "");
        QueueMeans(next);
        assert CheckQueue(e) == CheckQueue(next);
        forall k ensures FirstOpen(e, k) <==> FirstOpen(next, k - 1) { ShiftedOpen(e, next, k); }
        forall k | FirstOpen(e, k) ensures Announces(e, CheckQueue(e), e.queue[k], e.queue[k + 1..]) {
          assert FirstOpen(next, k - 1) && e.queue[1..][k..] == e.queue[k + 1..];
        }
        if forall k :: !FirstOpen(e, k) {
          forall k ensures !FirstOpen(next, k) { assert FirstOpen(e, k + 1) <==> FirstOpen(next, k); }
        }
      }
    }
  }

  lemma ShiftedOpen(e: Endpoint, next: Endpoint, k: int)
    requires e.queue != [] && e.queue[0].path !in e.files && next.files == e.files && next.queue == e.queue[1..]
    ensures FirstOpen(e, k) <==> FirstOpen(next, k - 1)
  {
    if FirstOpen(next, k - 1) {
      forall i | 0 <= i < k ensures e.queue[i].path !in e.files { if i > 0 { assert next.queue[i - 1] == e.queue[i]; } }
    }
    if FirstOpen(e, k) {
      forall i | 0 <= i < k - 1 ensures next.queue[i].path !in e.files { assert next.queue[i] == e.queue[i + 1]; }
    }
  }

  // ---- requests and answers ---------------------------------------------------------

  /** One file asked for: it waits while the socket is busy, and is announced at once by a
      free one, which looks at its queue instead if the file cannot be opened. */
  lemma SendFileMeans(e: Endpoint, t: Task)
    ensures e.busy ==> Prepare(e, t) == e.(queue := e.queue + [t])
    ensures !e.busy && t.path in e.files ==> Announces(e, Prepare(e, t), t, e.queue)
    ensures !e.busy && t.path !in e.files ==> Prepare(e, t) == CheckQueue(e.(device := Closed, current := ""))
  {
  }

  /** A request to take a file: the answer is 1 and the file is there, empty and open, or the
      answer is 0 and no file has changed. */
  lemma FileRequestMeans(h: Host, e: Endpoint, name: string, dir: string, size: nat)
    ensures var f, path := Handle(h, e, Text(FileRequest(name, dir, size))), h.place(dir, name);
            && |f.sent| > |e.sent| && f.sent[..|e.sent|] == e.sent
            && f.sent[|e.sent|] == Text(FileAnswer(if h.writable(path) then 1 else 0))
            && (if h.writable(path)
                then f == e.(files := e.files[path := []], device := Writing(path), busy := true, current := path,
                             sent := f.sent) && |f.sent| == |e.sent| + 1
                else f.files == e.files && f.received == e.received + [Receipt(path, false)])
  {
    var path := h.place(dir, name);
    if !h.writable(path) {
      var g := Say(e.(device := Closed, busy := false, current := path), FileAnswer(0));
      var f := Handle(h, e, Text(FileRequest(name, dir, size)));
      assert f == CheckQueue(g.(received := g.received + [Receipt(path, false)]));
      assert g.sent <= f.sent;
      assert g.sent[|e.sent|] == Text(FileAnswer(0));
    }
  }

  /** Pieces of 16384 bytes, the last one of 1 to 16384. */
  predicate InBlocks(pieces: seq<Piece>) {
    forall i :: 0 <= i < |pieces| ==>
      if i < |pieces| - 1 then |pieces[i]| == 16384 else 1 <= |pieces[i]| <= 16384
  }

  lemma {:induction false} CutInBlocks(bytes: seq<Byte>)
    ensures InBlocks(Cut(bytes))
    decreases |bytes|
  {
    if |bytes| > 16384 {
      var rest := Cut(bytes[16384..]);
      CutInBlocks(bytes[16384..]);
      assert Cut(bytes) == [bytes[..16384]] + rest && rest != [];
    }
  }

  /** The go-ahead for the file that is open: its bytes in blocks, in order, and then the
      request to check it with its sum. */
  lemma GoAheadMeans(h: Host, e: Endpoint)
    requires e.device.Reading?
    ensures var f := Handle(h, e, Text(FileAnswer(1)));
            exists pieces: seq<Piece> ::
              && Flat(pieces) == e.device.left && InBlocks(pieces)
              && f == e.(device := Closed, sent := f.sent) && |f.sent| == |e.sent| + |pieces| + 1
              && f.sent[..|e.sent|] == e.sent
              && (forall i :: 0 <= i < |pieces| ==> f.sent[|e.sent| + i] == Binary(pieces[i]))
              && f.sent[|e.sent| + |pieces|] ==
                 Text(CheckRequest(if e.current in e.files then h.digest(e.files[e.current]) else ""))
  {
    hide Cut;
    var pieces := Cut(e.device.left);
    CutFlat(e.device.left);
    CutInBlocks(e.device.left);
    assert SendBinary(h, e).sent == e.sent + Binaries(pieces) + [Text(CheckRequest(DigestOf(h, e, e.current)))];
  }

  /** A refusal: the file is given up and the queue looked at. */
  lemma RefusalMeans(h: Host, e: Endpoint, status: int)
    requires status != 1
    ensures Handle(h, e, Text(FileAnswer(status))) == CheckQueue(e.(device := Closed, busy := false))
  {
  }

  /** The sum of what is stored is the one that is asked about. */
  predicate Agrees(h: Host, e: Endpoint, md5: string) {
    md5 == if e.current in e.files then h.digest(e.files[e.current]) else ""
  }

  /** The check of a file that has been received: the answer is 1 exactly if the sums agree;
      if they do not, the file is removed.  With no file of its own waiting the receiver sends
      nothing else and is free. */
  lemma CheckRequestMeans(h: Host, e: Endpoint, md5: string)
    ensures var f, ok := Handle(h, e, Text(CheckRequest(md5))), Agrees(h, e, md5);
            && |f.sent| > |e.sent| && f.sent[..|e.sent|] == e.sent
            && f.sent[|e.sent|] == Text(CheckAnswer(if ok then 1 else 0))
            && f.files == (if ok then e.files else map path | path in e.files && path != e.current :: e.files[path])
            && f.received == e.received + [Receipt(e.current, ok)]
            && (e.queue == [] ==>
                  |f.sent| == |e.sent| + 1 && !f.busy && f.device == Closed && f.current == "" && f.queue == [])
  {
    var f, ok := Handle(h, e, Text(CheckRequest(md5))), Agrees(h, e, md5);
    var kept := if ok then e else e.(files := e.files - {e.current});
    var g := Say(kept.(device := Closed, busy := false, current := ""), CheckAnswer(if ok then 1 else 0));
    assert f == CheckQueue(g.(received := g.received + [Receipt(e.current, ok)]));
    assert g.sent <= f.sent && g.sent[|e.sent|] == Text(CheckAnswer(if ok then 1 else 0));
  }

  /** The answer to a check: after success the sender turns to its queue, after a failure it
      is free and leaves the queue as it is. */
  lemma CheckAnswerMeans(h: Host, e: Endpoint, status: int)
    ensures var f := Handle(h, e, Text(CheckAnswer(status)));
            f == if status == 1 then CheckQueue(e.(device := Closed, busy := false, current := ""))
                 else e.(device := Closed, busy := false)
  {
  }

  /** Both sides: a stored content whose sum is not the one the sender gave is removed, and
      the sender, told so, announces nothing more, whatever waits in its queue; when the sums
      agree the file stays and the sender announces the next file it can open. */
  lemma CheckDecides(ha: Host, hb: Host, a: Endpoint, b: Endpoint, md5: string)
    ensures var f := Handle(hb, b, Text(CheckRequest(md5)));
            |f.sent| > |b.sent| &&
            var g := Handle(ha, a, f.sent[|b.sent|]);
            if Agrees(hb, b, md5) then
              && f.files == b.files
              && forall k :: FirstOpen(a, k) ==>
                   |g.sent| == |a.sent| + 1 && g.queue == a.queue[k + 1..] && g.busy
                   && g.sent[|a.sent|] == Text(FileRequest(a.queue[k].name, a.queue[k].dir, |a.files[a.queue[k].path]|))
            else
              b.current !in f.files && g.sent == a.sent && g.queue == a.queue && !g.busy
  {
    CheckRequestMeans(hb, b, md5);
    CheckAnswerMeans(ha, a, if Agrees(hb, b, md5) then 1 else 0);
    var free := a.(device := Closed, busy := false, current := "");
    QueueMeans(free);
    forall k | FirstOpen(a, k) ensures FirstOpen(free, k) {}
  }

  /** File data: appended to the file that is open for writing, and dropped without one.  Other
      messages do nothing to the transfer. */
  lemma DataMeans(h: Host, e: Endpoint, bytes: Piece)
    ensures Handle(h, e, Binary(bytes)) ==
            if e.device.Writing? && e.device.path in e.files
            then e.(files := e.files[e.device.path := e.files[e.device.path] + bytes]) else e
    ensures forall text :: Handle(h, e, Text(Other(text))) == e
  {
  }
}
