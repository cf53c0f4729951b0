/** How the embedded web server cuts the bytes of a kept-alive connection into requests. */
module HttpRequests {
  import opened Messages

  const MAX_REQUEST_SIZE: nat := 16384
  const LF: Byte := 10
  const CR: Byte := 13

  /** Not allowed in a request: not printable, no line end, and below 128. */
  predicate Control(b: Byte) {
    b < 128 && !(32 <= b < 127) && b != CR && b != LF
  }

  predicate Clean(s: seq<Byte>) {
    forall i :: 0 <= i < |s| ==> !Control(s[i])
  }

  // ---- the end of a request -----------------------------------------------------------

  /** The number of bytes up to and with the empty line whose first line feed is at `s`;
      0 if there is none. */
  function EndAt(buf: seq<Byte>, s: nat): nat {
    if s + 1 < |buf| && buf[s] == LF && buf[s + 1] == LF then s + 2
    else if s + 2 < |buf| && buf[s] == LF && buf[s + 1] == CR && buf[s + 2] == LF then s + 3
    else 0
  }

  /** The loop of get_request_len from `s` on.  A control character is remembered as -1, but
      does not end the loop. */
  function LenFrom(buf: seq<Byte>, s: nat, len: int): int
    decreases |buf| - s
  {
    if len > 0 || s + 1 >= |buf| then len
    else if Control(buf[s]) then LenFrom(buf, s + 1, -1)
    else if EndAt(buf, s) > 0 then EndAt(buf, s)
    else LenFrom(buf, s + 1, len)
  }

  function RequestLen(buf: seq<Byte>): int {
    LenFrom(buf, 0, 0)
  }

  method GetRequestLen(buf: array<Byte>, bufLen: nat) returns (len: int)
    requires bufLen <= buf.Length
    ensures len == RequestLen(buf[..bufLen])
  {
    len := 0;
    var s := 0;
    ghost var b := buf[..bufLen];
    while len <= 0 && s + 1 < bufLen
      invariant LenFrom(b, s, len) == RequestLen(b)
      decreases bufLen - s, if len <= 0 then 1 else 0
    {
      if Control(buf[s]) {
        len := -1;
      } else if buf[s] == LF && buf[s + 1] == LF {
        len := s + 2;
      } else if buf[s] == LF && s + 2 < bufLen && buf[s + 1] == CR && buf[s + 2] == LF {
        len := s + 3;
      }
      s := s + 1;
    }
  }

  /** The first empty line of `buf` starts at `s`. */
  predicate FirstEnd(buf: seq<Byte>, s: nat) {
    EndAt(buf, s) > 0 && forall r :: 0 <= r < s ==> EndAt(buf, r) == 0
  }

  predicate Dirty(buf: seq<Byte>) {
    exists i :: 0 <= i < |buf| - 1 && Control(buf[i])
  }

  /** What the loop computes: the end of the first empty line; without one, -1 if a control
      character comes before the last byte, and 0 otherwise. */
  lemma {:induction false} LenMeaning(buf: seq<Byte>, s: nat, len: int)
    requires len == 0 || len == -1
    requires forall r :: 0 <= r < s ==> EndAt(buf, r) == 0
    requires len == -1 <==> exists i :: 0 <= i < s && i < |buf| - 1 && Control(buf[i])
    ensures LenFrom(buf, s, len) > 0 ==> exists e :: FirstEnd(buf, e) && LenFrom(buf, s, len) == EndAt(buf, e)
    ensures LenFrom(buf, s, len) <= 0 ==> forall e: nat :: EndAt(buf, e) == 0
    ensures LenFrom(buf, s, len) <= 0 ==> LenFrom(buf, s, len) == if Dirty(buf) then -1 else 0
    decreases |buf| - s
  {
    if s + 1 >= |buf| {
      assert forall e: nat :: e >= s ==> EndAt(buf, e) == 0;
    } else if Control(buf[s]) {
      LenMeaning(buf, s + 1, -1);
    } else if EndAt(buf, s) > 0 {
      assert FirstEnd(buf, s);
    } else {
      LenMeaning(buf, s + 1, len);
    }
  }

  lemma OneFirstEnd(buf: seq<Byte>, d: nat, e: nat)
    requires FirstEnd(buf, d) && FirstEnd(buf, e)
    ensures d == e
  {
    assert EndAt(buf, d) > 0 && EndAt(buf, e) > 0;
  }

  lemma LenIsEnd(buf: seq<Byte>, e: nat)
    requires FirstEnd(buf, e)
    ensures RequestLen(buf) == EndAt(buf, e)
  {
    LenMeaning(buf, 0, 0);
    if RequestLen(buf) > 0 {
      var d: nat :| FirstEnd(buf, d) && RequestLen(buf) == EndAt(buf, d);
      OneFirstEnd(buf, d, e);
    }
  }

  lemma EndStays(buf: seq<Byte>, more: seq<Byte>, e: nat)
    requires FirstEnd(buf, e)
    ensures FirstEnd(buf + more, e) && EndAt(buf + more, e) == EndAt(buf, e)
  {
    forall r | 0 <= r < e ensures EndAt(buf + more, r) == 0 {
      assert EndAt(buf, r) == 0;
    }
  }

  /** The first `n` bytes end with an empty line: two line feeds, or with a carriage return
      between them. */
  predicate EndsEmpty(buf: seq<Byte>, n: int) {
    && 2 <= n <= |buf| && buf[n - 1] == 10
    && (buf[n - 2] == 10 || (n >= 3 && buf[n - 2] == 13 && buf[n - 3] == 10))
  }

  /** Below 32 and no line end, or 127. */
  predicate Unprintable(b: Byte) {
    b == 127 || (b < 32 && b != 10 && b != 13)
  }

  lemma EndAtMeans(buf: seq<Byte>, n: nat)
    requires n <= |buf|
    ensures EndsEmpty(buf, n) <==> exists s :: 0 <= s < n && EndAt(buf, s) == n
  {
    if EndsEmpty(buf, n) {
      var s := if buf[n - 2] == 10 then n - 2 else n - 3;
      assert EndAt(buf, s) == n;
    }
  }

  /** get_request_len, of the bytes: the least length that ends with an empty line; without
      one, -1 if a byte before the last is unprintable, and otherwise 0. */
  lemma RequestLenMeans(buf: seq<Byte>)
    ensures RequestLen(buf) > 0 ==>
              EndsEmpty(buf, RequestLen(buf)) && forall m :: 0 <= m < RequestLen(buf) ==> !EndsEmpty(buf, m)
    ensures RequestLen(buf) <= 0 ==> forall m :: 0 <= m <= |buf| ==> !EndsEmpty(buf, m)
    ensures RequestLen(buf) <= 0 ==>
              RequestLen(buf) == if exists i :: 0 <= i < |buf| - 1 && Unprintable(buf[i]) then -1 else 0
  {
    LenMeaning(buf, 0, 0);
    var n := RequestLen(buf);
    if n > 0 {
      var e: nat :| FirstEnd(buf, e) && n == EndAt(buf, e);
      EndAtMeans(buf, n);
      forall m | 0 <= m < n ensures !EndsEmpty(buf, m) {
        EndAtMeans(buf, m);
        forall s: nat | s < m ensures EndAt(buf, s) != m { assert s < e ==> EndAt(buf, s) == 0; }
      }
    } else {
      forall m | 0 <= m <= |buf| ensures !EndsEmpty(buf, m) { EndAtMeans(buf, m); }
      forall i | 0 <= i < |buf| - 1 ensures Control(buf[i]) <==> Unprintable(buf[i]) {}
      assert Dirty(buf) <==> exists i :: 0 <= i < |buf| - 1 && Unprintable(buf[i]);
    }
  }

  /** A result stands whatever comes later, exactly if it is the length of a request: both
      "not complete" and "bad character" are revised by an empty line that follows. */
  lemma LenIsFinalIff(buf: seq<Byte>)
    ensures (forall more :: RequestLen(buf + more) == RequestLen(buf)) <==> RequestLen(buf) > 0
  {
    LenMeaning(buf, 0, 0);
    if RequestLen(buf) > 0 {
      var e: nat :| FirstEnd(buf, e) && RequestLen(buf) == EndAt(buf, e);
      forall more ensures RequestLen(buf + more) == RequestLen(buf) {
        EndStays(buf, more, e);
        LenIsEnd(buf + more, e);
      }
    } else {
      var more := [LF, LF];
      LenMeaning(buf + more, 0, 0);
      assert EndAt(buf + more, |buf|) == |buf| + 2;
      assert RequestLen(buf + more) > 0;
    }
  }

  /** The first request of a stream is recognised at the same place however much of it has
      arrived, exactly if there is no control character in it before its last byte. */
  lemma ArrivalOfOneIff(s: seq<Byte>)
    requires RequestLen(s) > 0
    ensures 2 <= RequestLen(s) <= |s|
    ensures (forall k :: 0 <= k <= |s| ==> RequestLen(s[..k]) == if k < RequestLen(s) then 0 else RequestLen(s))
       <==> Clean(s[..RequestLen(s)])
  {
    var n := RequestLen(s);
    LenMeaning(s, 0, 0);
    var e: nat :| FirstEnd(s, e) && n == EndAt(s, e);
    forall k | 0 <= k <= |s| ensures k >= n ==> RequestLen(s[..k]) == n {
      if k >= n {
        forall r | 0 <= r < e ensures EndAt(s[..k], r) == 0 { assert EndAt(s, r) == 0; }
        LenIsEnd(s[..k], e);
      }
    }
    forall k | 0 <= k < n ensures RequestLen(s[..k]) == if Dirty(s[..k]) then -1 else 0 {
      NoEndBefore(s, e, k);
      LenMeaning(s[..k], 0, 0);
    }
    LastAreLines(s, e);
    if !Clean(s[..n]) {
      var i :| 0 <= i < n && Control(s[i]);
      assert Control(s[..n - 1][i]) && Dirty(s[..n - 1]);
    }
  }

  lemma NoEndBefore(s: seq<Byte>, e: nat, k: nat)
    requires FirstEnd(s, e) && k < EndAt(s, e) && k <= |s|
    ensures forall r: nat :: EndAt(s[..k], r) == 0
  {
    forall r: nat ensures EndAt(s[..k], r) == 0 {
      if r < e { assert EndAt(s, r) == 0; }
    }
  }

  lemma LastAreLines(s: seq<Byte>, e: nat)
    requires FirstEnd(s, e)
    ensures EndAt(s, e) <= |s| && forall i :: EndAt(s, e) - 2 <= i < EndAt(s, e) ==> !Control(s[i])
  {
  }

  // ---- the loop of a connection -------------------------------------------------------

  /** What becomes of a request: it cannot be parsed, it is the last, or more may follow. */
  datatype Verdict = Malformed | Closing | KeepAlive

  type Judge = seq<Byte> -> Verdict

  /** The connection: bytes in the buffer, and the pieces in which the others will arrive. */
  predicate Pieces(chunks: seq<seq<Byte>>) {
    forall i :: 0 <= i < |chunks| ==> chunks[i] != []
  }

  /** The bytes recv returns when there is room for `room`; none at the end of the stream. */
  function Pulled(room: nat, chunks: seq<seq<Byte>>): seq<Byte> {
    if chunks == [] then [] else if |chunks[0]| <= room then chunks[0] else chunks[0][..room]
  }

  function Unpulled(room: nat, chunks: seq<seq<Byte>>): (r: seq<seq<Byte>>)
    ensures Pieces(chunks) ==> Pieces(r)
    ensures Pulled(room, chunks) + Flat(r) == Flat(chunks)
  {
    if chunks == [] then []
    else if |chunks[0]| <= room then chunks[1..]
    else
      assert [chunks[0][room..]] + chunks[1..] != [] && ([chunks[0][room..]] + chunks[1..])[1..] == chunks[1..];
      assert chunks[0] == chunks[0][..room] + chunks[0][room..];
      [chunks[0][room..]] + chunks[1..]
  }

  lemma LenBounds(buf: seq<Byte>)
    ensures RequestLen(buf) > 0 ==> 2 <= RequestLen(buf) <= |buf|
  {
    LenMeaning(buf, 0, 0);
  }

  datatype Input = Input(len: int, buf: seq<Byte>, chunks: seq<seq<Byte>>)

  /** read_request: pulls until a request is complete, the buffer full or the stream ended. */
  function ReadRequest(buf: seq<Byte>, chunks: seq<seq<Byte>>): (r: Input)
    requires |buf| <= MAX_REQUEST_SIZE && Pieces(chunks)
    ensures |r.buf| <= MAX_REQUEST_SIZE && Pieces(r.chunks) && r.buf + Flat(r.chunks) == buf + Flat(chunks)
    ensures r.len > 0 ==> r.len == RequestLen(r.buf) <= |r.buf|
    decreases MAX_REQUEST_SIZE - |buf|
  {
    var room := MAX_REQUEST_SIZE - |buf|;
    if room == 0 || chunks == [] then Input(0, buf, chunks)
    else
      var rest := Unpulled(room, chunks);
      var now := buf + Pulled(room, chunks);
      assert now + Flat(rest) == buf + Flat(chunks);
      LenBounds(now);
      if RequestLen(now) != 0 then Input(RequestLen(now), now, rest) else ReadRequest(now, rest)
  }

  function NextRequest(buf: seq<Byte>, chunks: seq<seq<Byte>>): (r: Input)
    requires |buf| <= MAX_REQUEST_SIZE && Pieces(chunks)
    ensures |r.buf| <= MAX_REQUEST_SIZE && Pieces(r.chunks) && r.buf + Flat(r.chunks) == buf + Flat(chunks)
    ensures r.len > 0 ==> r.len == RequestLen(r.buf) <= |r.buf|
  {
    LenBounds(buf);
    if RequestLen(buf) == 0 then ReadRequest(buf, chunks) else Input(RequestLen(buf), buf, chunks)
  }

  datatype Service = Service(requests: seq<seq<Byte>>, buf: seq<Byte>, chunks: seq<seq<Byte>>)

  /** process_new_connection for requests without a body: the requests handed to the
      handlers, and what is left when the connection is closed. */
  function Serve(judge: Judge, buf: seq<Byte>, chunks: seq<seq<Byte>>): Service
    requires |buf| <= MAX_REQUEST_SIZE && Pieces(chunks)
    decreases |buf| + |Flat(chunks)|
  {
    var next := NextRequest(buf, chunks);
    LenBounds(next.buf);
    assert |next.buf + Flat(next.chunks)| == |buf + Flat(chunks)|;
    if next.len <= 0 then Service([], next.buf, next.chunks)
    else
      var request, rest := next.buf[..next.len], next.buf[next.len..];
      match judge(request)
      case Malformed => Service([], next.buf, next.chunks)
      case Closing => Service([request], rest, next.chunks)
      case KeepAlive =>
        var later := Serve(judge, rest, next.chunks);
        later.(requests := [request] + later.requests)
  }

  // ---- pipelining ---------------------------------------------------------------------

  /** As much of a stream as the buffer can hold. */
  function Window(s: seq<Byte>): seq<Byte> {
    if |s| <= MAX_REQUEST_SIZE then s else s[..MAX_REQUEST_SIZE]
  }

  /** The length of the first request of a stream, if its beginning in the buffer has one. */
  function FirstLen(s: seq<Byte>): (n: int)
    ensures n > 0 ==> 2 <= n <= |s| && n <= MAX_REQUEST_SIZE && Window(s)[..n] == s[..n]
    ensures n <= |s|
  {
    LenBounds(Window(s));
    RequestLen(Window(s))
  }

  /** The requests of a stream, said without a buffer: up to the first empty line, and on. */
  function Requests(judge: Judge, s: seq<Byte>): seq<seq<Byte>>
    decreases |s|
  {
    var n := FirstLen(s);
    if n <= 0 || judge(s[..n]).Malformed? then []
    else [s[..n]] + if judge(s[..n]).KeepAlive? then Requests(judge, s[n..]) else []
  }

  /** The first `n` bytes, 16384 at most, are the least that end with an empty line. */
  predicate IsRequest(s: seq<Byte>, n: int) {
    n <= 16384 && EndsEmpty(s, n) && forall m :: 0 <= m < n ==> !EndsEmpty(s, m)
  }

  lemma FirstLenMeans(s: seq<Byte>, n: int)
    ensures IsRequest(s, n) <==> n > 0 && FirstLen(s) == n
  {
    hide RequestLen;
    RequestLenMeans(Window(s));
    forall m | 0 <= m <= |s| ensures EndsEmpty(Window(s), m) <==> m <= 16384 && EndsEmpty(s, m) {}
  }

  /** Request `i` is cut out of the stream where those before it end; it can be parsed, and
      allows others to follow if one does. */
  predicate CutAt(judge: Judge, s: seq<Byte>, requests: seq<seq<Byte>>, i: nat)
    requires i < |requests|
  {
    && Flat(requests[..i]) + requests[i] <= s && IsRequest(s[|Flat(requests[..i])|..], |requests[i]|)
    && judge(requests[i]) != Malformed && (i < |requests| - 1 ==> judge(requests[i]) == KeepAlive)
  }

  /** After them, unless the last one closes the connection, the stream has none that can be
      parsed. */
  ghost predicate NoneFollows(judge: Judge, s: seq<Byte>, requests: seq<seq<Byte>>) {
    Flat(requests) <= s &&
    (requests == [] || judge(requests[|requests| - 1]) == KeepAlive ==>
       var rest := s[|Flat(requests)|..];
       forall n :: IsRequest(rest, n) ==> judge(rest[..n]) == Malformed)
  }

  /** The cuts behind the first request are those of the rest of the stream. */
  lemma CutLater(judge: Judge, s: seq<Byte>, n: nat, later: seq<seq<Byte>>, i: nat)
    requires n <= |s| && i < |later| && CutAt(judge, s[n..], later, i)
    ensures CutAt(judge, s, [s[..n]] + later, i + 1)
  {
    hide IsRequest;
    var all := [s[..n]] + later;
    assert all[..i + 1][1..] == later[..i];
    assert Flat(all[..i + 1]) == s[..n] + Flat(later[..i]);
    var at := |Flat(later[..i])|;
    assert s == s[..n] + s[n..] && s[n..][at..] == s[n + at..];
    assert Flat(all[..i + 1]) + all[i + 1] == s[..n] + (Flat(later[..i]) + later[i]);
  }

  lemma NoneFollowsLater(judge: Judge, s: seq<Byte>, n: nat, later: seq<seq<Byte>>)
    requires n <= |s| && (later == [] ==> judge(s[..n]) == KeepAlive) && NoneFollows(judge, s[n..], later)
    ensures NoneFollows(judge, s, [s[..n]] + later)
  {
    hide IsRequest;
    var all := [s[..n]] + later;
    assert all[1..] == later && Flat(all) == s[..n] + Flat(later) && s == s[..n] + s[n..];
    assert s[n..][|Flat(later)|..] == s[|Flat(all)|..];
    assert all[|all| - 1] == if later == [] then s[..n] else later[|later| - 1];
  }

  /** The requests of a stream are found by the empty lines in it, one after the other. */
  lemma {:induction false} RequestsMean(judge: Judge, s: seq<Byte>)
    ensures var requests := Requests(judge, s);
            NoneFollows(judge, s, requests) && forall i :: 0 <= i < |requests| ==> CutAt(judge, s, requests, i)
    decreases |s|
  {
    hide IsRequest, FirstLen, CutAt, NoneFollows;
    var n := FirstLen(s);
    if n <= 0 || judge(s[..n]).Malformed? {
      NoRequest(judge, s);
    } else {
      var more := judge(s[..n]).KeepAlive?;
      var later := if more then Requests(judge, s[n..]) else [];
      var all := [s[..n]] + later;
      assert Requests(judge, s) == all;
      FirstRequest(judge, s, later);
      if more {
        RequestsMean(judge, s[n..]);
        NoneFollowsLater(judge, s, n, later);
      }
      forall i | 0 <= i < |all| ensures CutAt(judge, s, all, i) {
        if i > 0 { CutLater(judge, s, n, later, i - 1); }
      }
      if !more { assert all == [s[..n]]; }
    }
  }

  lemma NoRequest(judge: Judge, s: seq<Byte>)
    requires FirstLen(s) <= 0 || judge(s[..FirstLen(s)]).Malformed?
    ensures NoneFollows(judge, s, [])
  {
    hide IsRequest, FirstLen;
    assert s[0..] == s;
    forall m ensures IsRequest(s, m) ==> 0 <= m <= |s| && judge(s[..m]) == Malformed { FirstLenMeans(s, m); }
  }

  lemma FirstRequest(judge: Judge, s: seq<Byte>, later: seq<seq<Byte>>)
    requires FirstLen(s) > 0 && !judge(s[..FirstLen(s)]).Malformed?
    requires later != [] ==> judge(s[..FirstLen(s)]).KeepAlive?
    ensures CutAt(judge, s, [s[..FirstLen(s)]] + later, 0)
    ensures judge(s[..FirstLen(s)]).Closing? ==> NoneFollows(judge, s, [s[..FirstLen(s)]])
  {
    hide IsRequest, FirstLen;
    var n := FirstLen(s);
    FirstLenMeans(s, n);
    assert s[0..] == s && ([s[..n]] + later)[..0] == [];
    assert Flat([s[..n]]) == s[..n] + Flat([]) == s[..n];
  }

  predicate AllClean(requests: seq<seq<Byte>>) {
    forall i :: 0 <= i < |requests| ==> Clean(requests[i])
  }

  /** A request found in a part of the stream is the one its window has; and one without a
      control character is found as soon as it is there, and not before. */
  lemma PartFinds(s: seq<Byte>, k: nat)
    requires k <= |Window(s)|
    ensures RequestLen(s[..k]) > 0 ==> RequestLen(s[..k]) == FirstLen(s)
    ensures FirstLen(s) > 0 && k >= FirstLen(s) ==> RequestLen(s[..k]) == FirstLen(s)
    ensures FirstLen(s) > k && Clean(s[..FirstLen(s)]) ==> RequestLen(s[..k]) == 0
  {
    var w := Window(s);
    var n := FirstLen(s);
    assert w[..k] == s[..k];
    if RequestLen(w[..k]) > 0 {
      LenIsFinalIff(w[..k]);
      assert w[..k] + w[k..] == w;
    }
    if n > 0 {
      ArrivalOfOneIff(w);
      if n <= k { FoundOnceThere(w, k); }
    }
  }

  lemma FoundOnceThere(w: seq<Byte>, k: nat)
    requires 0 < RequestLen(w) <= k <= |w|
    ensures RequestLen(w[..k]) == RequestLen(w)
  {
    LenMeaning(w, 0, 0);
    var e: nat :| FirstEnd(w, e) && RequestLen(w) == EndAt(w, e);
    forall r | 0 <= r < e ensures EndAt(w[..k], r) == 0 { assert EndAt(w, r) == 0; }
    LenIsEnd(w[..k], e);
  }

  /** What reading makes of a stream, however it arrives. */
  predicate Finds(s: seq<Byte>, len: int)
  {
    && (len > 0 ==> len == FirstLen(s))
    && (FirstLen(s) > 0 && Clean(s[..FirstLen(s)]) ==> len == FirstLen(s))
  }

  lemma {:induction false} ReadFinds(buf: seq<Byte>, chunks: seq<seq<Byte>>)
    requires |buf| <= MAX_REQUEST_SIZE && Pieces(chunks) && RequestLen(buf) == 0
    ensures Finds(buf + Flat(chunks), ReadRequest(buf, chunks).len)
    decreases MAX_REQUEST_SIZE - |buf|
  {
    hide RequestLen, Clean;
    var s := buf + Flat(chunks);
    var room := MAX_REQUEST_SIZE - |buf|;
    if room == 0 || chunks == [] {
      assert Window(s) == buf;
    } else {
      var rest := Unpulled(room, chunks);
      var now := buf + Pulled(room, chunks);
      assert now + Flat(rest) == s && now == s[..|now|];
      PartFinds(s, |now|);
      if RequestLen(now) == 0 {
        ReadFinds(now, rest);
      }
    }
  }

  lemma NextFinds(buf: seq<Byte>, chunks: seq<seq<Byte>>)
    requires |buf| <= MAX_REQUEST_SIZE && Pieces(chunks)
    ensures Finds(buf + Flat(chunks), NextRequest(buf, chunks).len)
  {
    hide FirstLen, RequestLen, Clean;
    var s := buf + Flat(chunks);
    if RequestLen(buf) == 0 {
      ReadFinds(buf, chunks);
    } else {
      assert buf == s[..|buf|];
      PartFinds(s, |buf|);
    }
  }

  /** The first request of a stream and the others. */
  lemma RequestsUnfold(judge: Judge, s: seq<Byte>)
    requires FirstLen(s) > 0 && !judge(s[..FirstLen(s)]).Malformed?
    ensures var n := FirstLen(s);
            var later := if judge(s[..n]).KeepAlive? then Requests(judge, s[n..]) else [];
            && Requests(judge, s) == [s[..n]] + later
            && (AllClean(Requests(judge, s)) <==> Clean(s[..n]) && AllClean(later))
  {
    hide FirstLen, Clean;
    var n := FirstLen(s);
    AllCleanFirst(s[..n], if judge(s[..n]).KeepAlive? then Requests(judge, s[n..]) else []);
  }

  lemma AllCleanFirst(first: seq<Byte>, later: seq<seq<Byte>>)
    ensures AllClean([first] + later) <==> Clean(first) && AllClean(later)
  {
    hide Clean;
    var all := [first] + later;
    assert all[0] == first && forall i :: 0 <= i < |later| ==> later[i] == all[i + 1];
  }

  /** Pipelining: when no request of a stream has a control character in it, the stream is cut
      into its requests however it arrives, whatever follows them. */
  lemma {:induction false} ArrivalDoesNotMatter(judge: Judge, buf: seq<Byte>, chunks: seq<seq<Byte>>)
    requires |buf| <= MAX_REQUEST_SIZE && Pieces(chunks) && AllClean(Requests(judge, buf + Flat(chunks)))
    ensures Serve(judge, buf, chunks).requests == Requests(judge, buf + Flat(chunks))
    decreases |buf| + |Flat(chunks)|
  {
    hide RequestLen, Flat, NextRequest, ReadRequest, Clean, AllClean;
    var s := buf + Flat(chunks);
    var next := NextRequest(buf, chunks);
    NextFinds(buf, chunks);
    LenBounds(next.buf);
    var n := FirstLen(s);
    if n > 0 {
      if !judge(s[..n]).Malformed? {
        RequestsUnfold(judge, s);
        var rest := next.buf[n..];
        assert s == next.buf + Flat(next.chunks);
        assert s[..n] == next.buf[..n];
        assert s[n..] == rest + Flat(next.chunks);
        if judge(s[..n]).KeepAlive? {
          assert |rest| + |Flat(next.chunks)| < |buf| + |Flat(chunks)| by {
            assert |s| == |buf| + |Flat(chunks)|;
          }
          ArrivalDoesNotMatter(judge, rest, next.chunks);
        }
      } else if next.len > 0 {
        assert s == next.buf + Flat(next.chunks);
        assert s[..n] == next.buf[..n];
      }
    }
  }

  /** However a stream arrives, and whatever is in it: what is handed over are requests of the
      stream, from the first on. */
  lemma {:induction false} ServesFirstOnes(judge: Judge, buf: seq<Byte>, chunks: seq<seq<Byte>>)
    requires |buf| <= MAX_REQUEST_SIZE && Pieces(chunks)
    ensures Serve(judge, buf, chunks).requests <= Requests(judge, buf + Flat(chunks))
    decreases |buf| + |Flat(chunks)|
  {
    hide RequestLen, Flat, NextRequest, ReadRequest, Clean;
    var s := buf + Flat(chunks);
    var next := NextRequest(buf, chunks);
    NextFinds(buf, chunks);
    LenBounds(next.buf);
    if next.len > 0 {
      var n, rest := next.len, next.buf[next.len..];
      assert s == next.buf + Flat(next.chunks);
      assert s[..n] == next.buf[..n] && s[n..] == rest + Flat(next.chunks);
      if judge(s[..n]).KeepAlive? {
        assert |rest| + |Flat(next.chunks)| < |buf| + |Flat(chunks)| by {
          assert |s| == |buf| + |Flat(chunks)|;
        }
        ServesFirstOnes(judge, rest, next.chunks);
      }
    }
  }

  // ---- one byte at a time -----------------------------------------------------------------

  /** The stream in pieces of one byte. */
  function Ones(s: seq<Byte>): (chunks: seq<seq<Byte>>)
    ensures Pieces(chunks) && Flat(chunks) == s
  {
    if s == [] then []
    else
      var rest := Ones(s[1..]);
      assert ([[s[0]]] + rest)[1..] == rest;
      [[s[0]]] + rest
  }

  lemma OnesPull(s: seq<Byte>, k: nat, room: nat)
    requires k < |s| && room > 0
    ensures Ones(s[k..]) != []
    ensures s[..k] + Pulled(room, Ones(s[k..])) == s[..k + 1] && Unpulled(room, Ones(s[k..])) == Ones(s[k + 1..])
  {
    assert s[k..][1..] == s[k + 1..];
    assert Ones(s[k..])[1..] == Ones(s[k + 1..]);
  }

  /** Then a request without control character is read to its last byte, and any other one is
      refused before. */
  lemma {:induction false} ReadOnes(s: seq<Byte>, n: nat, k: nat)
    requires FirstLen(s) == n > 0 && k < n && RequestLen(s[..k]) == 0 && n <= |s|
    ensures k <= MAX_REQUEST_SIZE
    ensures if Clean(s[..n]) then ReadRequest(s[..k], Ones(s[k..])) == Input(n, s[..n], Ones(s[n..]))
            else ReadRequest(s[..k], Ones(s[k..])).len < 0
    decreases n - k
  {
    hide FirstLen, RequestLen, Clean, Ones, Pulled, Unpulled;
    assert n <= MAX_REQUEST_SIZE;
    OnesPull(s, k, MAX_REQUEST_SIZE - k);
    PartFinds(s, k + 1);
    if k + 1 < n && RequestLen(s[..k + 1]) == 0 {
      if k + 1 == n - 1 && !Clean(s[..n]) { UncleanRefused(s, n); }
      if k + 1 < n { ReadOnes(s, n, k + 1); }
    } else if k + 1 == n && !Clean(s[..n]) {
      UncleanRefused(s, n);
    }
  }

  lemma UncleanRefused(s: seq<Byte>, n: nat)
    requires FirstLen(s) == n > 0 && n <= |s| && !Clean(s[..n])
    ensures RequestLen(s[..n - 1]) < 0
  {
    var w := Window(s);
    assert w[..n - 1] == s[..n - 1];
    FoundOnceThere(w, n);
    assert w[..n] == s[..n];
    CutBeforeEnd(s[..n]);
    assert s[..n][..n - 1] == s[..n - 1];
  }

  /** If some request has a control character in it, not all of them are served. */
  lemma {:induction false} OnesServeFewer(judge: Judge, s: seq<Byte>)
    requires !AllClean(Requests(judge, s))
    ensures |Serve(judge, [], Ones(s)).requests| < |Requests(judge, s)|
    decreases |s|
  {
    hide FirstLen, RequestLen, Clean, ReadRequest, AllClean, Ones;
    var n := FirstLen(s);
    NoneIsClean();
    if n <= 0 || judge(s[..n]).Malformed? {
      assert false;
    } else {
      RequestsUnfold(judge, s);
      EmptyHasNone();
      assert s[..0] == [] && s[0..] == s;
      ReadOnes(s, n, 0);
      if Clean(s[..n]) {
        assert s[..n][..n] == s[..n] && s[..n][n..] == [];
        OnesServeFewer(judge, s[n..]);
      }
    }
  }

  lemma NoneIsClean()
    ensures AllClean([])
  {
  }

  lemma EmptyHasNone()
    ensures RequestLen([]) == 0
  {
  }

  /** A stream is cut into its requests however it arrives, exactly if none of the requests has
      a control character in it.  Bytes that are no request may have some. */
  lemma ServedHoweverItArrivesIff(judge: Judge, s: seq<Byte>)
    ensures (forall chunks :: Pieces(chunks) && Flat(chunks) == s ==>
               Serve(judge, [], chunks).requests == Requests(judge, s))
       <==> AllClean(Requests(judge, s))
  {
    hide FirstLen, RequestLen, Clean, Serve, Requests, AllClean;
    if AllClean(Requests(judge, s)) {
      forall chunks | Pieces(chunks) && Flat(chunks) == s
        ensures Serve(judge, [], chunks).requests == Requests(judge, s)
      {
        assert [] + Flat(chunks) == s;
        ArrivalDoesNotMatter(judge, [], chunks);
      }
    } else {
      OnesServeFewer(judge, s);
      assert Pieces(Ones(s)) && Flat(Ones(s)) == s;
    }
  }

  lemma FirstFlat(first: seq<Byte>, others: seq<seq<Byte>>, buf: seq<Byte>, more: seq<Byte>)
    ensures Flat([first] + others) + buf + more == first + (Flat(others) + buf + more)
  {
    assert ([first] + others)[1..] == others;
  }

  lemma NothingFlat()
    ensures Flat([]) == []
  {
  }

  /** Nothing is lost or invented: the requests handed over, the buffer and what has not
      arrived make up the stream. */
  lemma {:induction false} BytesAreConserved(judge: Judge, buf: seq<Byte>, chunks: seq<seq<Byte>>)
    requires |buf| <= MAX_REQUEST_SIZE && Pieces(chunks)
    ensures var v := Serve(judge, buf, chunks);
            Flat(v.requests) + v.buf + Flat(v.chunks) == buf + Flat(chunks)
    decreases |buf| + |Flat(chunks)|
  {
    hide RequestLen, Flat, NextRequest;
    var next := NextRequest(buf, chunks);
    LenBounds(next.buf);
    assert |next.buf + Flat(next.chunks)| == |buf + Flat(chunks)|;
    NothingFlat();
    if next.len > 0 {
      var request, rest := next.buf[..next.len], next.buf[next.len..];
      assert request + (rest + Flat(next.chunks)) == next.buf + Flat(next.chunks);
      match judge(request)
      case Malformed =>
      case Closing =>
        FirstFlat(request, [], rest, Flat(next.chunks));
        assert [request] + [] == [request];
      case KeepAlive =>
        var later := Serve(judge, rest, next.chunks);
        BytesAreConserved(judge, rest, next.chunks);
        FirstFlat(request, later.requests, later.buf, Flat(later.chunks));
    }
  }

  /** A single request with a control character in it is served or not as it arrives. */
  lemma ControlCharacterDecides(judge: Judge, s: seq<Byte>)
    requires RequestLen(s) == |s| <= MAX_REQUEST_SIZE && !judge(s).Malformed? && !Clean(s)
    ensures Requests(judge, s) == [s] + Serve(judge, [], []).requests
    ensures Flat([s[..|s| - 1], s[|s| - 1..]]) == s && Serve(judge, [], [s[..|s| - 1], s[|s| - 1..]]).requests == []
  {
    hide LenFrom, Clean, Flat;
    LenBounds(s);
    CutBeforeEnd(s);
    assert s[..|s|] == s && s[|s|..] == [];
    var first, last := s[..|s| - 1], s[|s| - 1..];
    TwoPieces(first, last);
    FirstPieceIsBad(first, last);
  }

  lemma CutBeforeEnd(s: seq<Byte>)
    requires RequestLen(s) == |s| && !Clean(s)
    ensures |s| >= 2 && RequestLen(s[..|s| - 1]) == -1
  {
    LenMeaning(s, 0, 0);
    var first := s[..|s| - 1];
    var e: nat :| FirstEnd(s, e) && RequestLen(s) == EndAt(s, e);
    LastAreLines(s, e);
    var i :| 0 <= i < |s| && Control(s[i]);
    assert Control(first[i]) && Dirty(first);
    NoEndBefore(s, e, |s| - 1);
    LenMeaning(first, 0, 0);
  }

  lemma TwoPieces(first: seq<Byte>, last: seq<Byte>)
    ensures Flat([first, last]) == first + last && [first, last][1..] == [last]
  {
    assert [first, last][1..] == [last] && [last][1..] == [];
    assert Flat([last]) == last + Flat([]);
  }

  lemma FirstPieceIsBad(first: seq<Byte>, last: seq<Byte>)
    requires 0 < |first| < MAX_REQUEST_SIZE && last != [] && RequestLen(first) == -1
    ensures Pieces([first, last]) && NextRequest([], [first, last]) == Input(-1, first, [last])
  {
    hide LenFrom;
    TwoPieces(first, last);
    assert RequestLen([]) == 0 by { LenMeaning([], 0, 0); }
    assert [] + first == first;
  }

  /** One turn of the loop of read_request. */
  lemma ReadTurn(buf: seq<Byte>, chunks: seq<seq<Byte>>)
    requires |buf| <= MAX_REQUEST_SIZE && Pieces(chunks)
    ensures var room := MAX_REQUEST_SIZE - |buf|;
            var bytes, rest := Pulled(room, chunks), Unpulled(room, chunks);
            && |bytes| <= room && Pieces(rest) && (room > 0 ==> (bytes == [] <==> chunks == []))
            && (chunks == [] ==> rest == [])
            && ReadRequest(buf, chunks) ==
               if room == 0 || chunks == [] then Input(0, buf, chunks)
               else if RequestLen(buf + bytes) != 0 then Input(RequestLen(buf + bytes), buf + bytes, rest)
               else ReadRequest(buf + bytes, rest)
  {
    hide RequestLen, Flat;
  }

  // ---- the program --------------------------------------------------------------------

  class Connection {
    const judge: Judge
    const buf: array<Byte>
    var nread: nat
    /** What the peer will send, and the requests the handlers have been given. */
    var arriving: seq<seq<Byte>>
    var served: seq<seq<Byte>>

    ghost predicate Valid()
      reads this
    {
      buf.Length == MAX_REQUEST_SIZE && nread <= MAX_REQUEST_SIZE && Pieces(arriving)
    }

    ghost function Buffered(): seq<Byte>
      requires Valid()
      reads this, buf
    {
      buf[..nread]
    }

    constructor (judge: Judge, arriving: seq<seq<Byte>>)
      requires Pieces(arriving)
      ensures Valid() && Buffered() == [] && this.arriving == arriving && served == [] && fresh(buf)
      ensures this.judge == judge
    {
      this.judge, this.arriving, served, nread := judge, arriving, [], 0;
      buf := new Byte[MAX_REQUEST_SIZE](_ => 0);
    }

    method Pull() returns (n: nat)
      requires Valid() && nread < MAX_REQUEST_SIZE
      modifies this`arriving, buf
      ensures Valid()
      ensures var room := MAX_REQUEST_SIZE - nread;
              && n == |Pulled(room, old(arriving))| <= room && arriving == Unpulled(room, old(arriving))
              && buf[..nread + n] == old(Buffered()) + Pulled(room, old(arriving))
    {
      hide Unpulled;
      var room := MAX_REQUEST_SIZE - nread;
      var bytes := Pulled(room, arriving);
      n := |bytes|;
      var i := 0;
      while i < n
        invariant i <= n && arriving == old(arriving)
        invariant forall k :: 0 <= k < nread + i ==> buf[k] == if k < nread then old(buf[k]) else bytes[k - nread]
      {
        buf[nread + i] := bytes[i];
        i := i + 1;
      }
      assert buf[..nread + n] == old(buf[..nread]) + bytes;
      arriving := Unpulled(room, arriving);
    }

    method ReadNext() returns (len: int)
      requires Valid()
      modifies this`arriving, this`nread, buf
      ensures Valid()
      ensures Input(len, Buffered(), arriving) == ReadRequest(old(Buffered()), old(arriving))
    {
      hide ReadRequest, RequestLen, Pulled, Unpulled;
      len := 0;
      ghost var b, c := Buffered(), arriving;
      while nread < MAX_REQUEST_SIZE && len == 0
        invariant Valid()
        invariant (if len == 0 then ReadRequest(Buffered(), arriving) else Input(len, Buffered(), arriving)) ==
          ReadRequest(b, c)
        decreases MAX_REQUEST_SIZE - nread
      {
        ReadTurn(Buffered(), arriving);
        var n := Pull();
        if n == 0 {
          break;
        }
        nread := nread + n;
        len := GetRequestLen(buf, nread);
      }
      if len == 0 { ReadTurn(Buffered(), arriving); }
    }

    /** shift_to_next without a body. */
    method ShiftToNext(reqLen: nat)
      requires Valid() && reqLen <= nread
      modifies this`nread, buf
      ensures Valid() && Buffered() == old(Buffered())[reqLen..]
    {
      ghost var was := buf[..];
      nread := nread - reqLen;
      var i := 0;
      while i < nread
        invariant i <= nread == old(nread) - reqLen
        invariant buf[..i] == was[reqLen..reqLen + i]
        invariant buf[i..] == was[i..]
      {
        assert buf[reqLen + i] == buf[i..][reqLen] == was[i..][reqLen] == was[reqLen + i];
        ghost var rest := buf[i + 1..];
        assert rest == buf[i..][1..] == was[i..][1..] == was[i + 1..];
        buf[i] := buf[reqLen + i];
        assert buf[i + 1..] == rest;
        assert buf[..i + 1] == buf[..i] + [was[reqLen + i]];
        i := i + 1;
      }
    }

    /** One turn of the loop. */
    method ProcessOne() returns (keepAlive: bool)
      requires Valid()
      modifies this`nread, this`arriving, this`served, buf
      ensures Valid()
      ensures var next := NextRequest(old(Buffered()), old(arriving));
              if next.len <= 0 || judge(next.buf[..next.len]).Malformed? then
                !keepAlive && served == old(served) && arriving == next.chunks
              else
                && served == old(served) + [next.buf[..next.len]] && arriving == next.chunks
                && Buffered() == next.buf[next.len..]
                && keepAlive == judge(next.buf[..next.len]).KeepAlive?
    {
      ghost var next := NextRequest(Buffered(), arriving);
      LenBounds(next.buf);
      keepAlive := false;
      var len := GetRequestLen(buf, nread);
      if len == 0 {
        len := ReadNext();
      }
      assert Input(len, Buffered(), arriving) == next;
      if len > 0 {
        var request := buf[..len];
        assert request == next.buf[..len];
        buf[len - 1] := 0;
        if !judge(request).Malformed? {
          served := served + [request];
          keepAlive := judge(request).KeepAlive?;
          assert Buffered()[len..] == next.buf[len..];
          ShiftToNext(len);
        }
      }
    }

    method ProcessNewConnection()
      requires Valid() && nread == 0
      modifies this`nread, this`arriving, this`served, buf
      ensures Valid()
      ensures var v := Serve(judge, [], old(arriving));
              served == old(served) + v.requests && arriving == v.chunks
    {
      hide NextRequest, Flat, RequestLen;
      ghost var all := Serve(judge, [], arriving);
      assert Buffered() == [];
      var keepAlive := true;
      while keepAlive
        invariant Valid()
        invariant var v := Serve(judge, Buffered(), arriving);
                  keepAlive ==> served + v.requests == old(served) + all.requests && v.chunks == all.chunks
        invariant !keepAlive ==> served == old(served) + all.requests && arriving == all.chunks
        decreases keepAlive, |Buffered()| + |Flat(arriving)|
      {
        ghost var b, c, before := Buffered(), arriving, served;
        ghost var next := NextRequest(b, c);
        LenBounds(next.buf);
        assert |next.buf + Flat(next.chunks)| == |b + Flat(c)|;
        keepAlive := ProcessOne();
        ghost var later := Serve(judge, Buffered(), arriving);
        if keepAlive {
          assert Serve(judge, b, c).requests == [next.buf[..next.len]] + later.requests;
          assert before + ([next.buf[..next.len]] + later.requests) == served + later.requests;
        } else {
          assert served == before + Serve(judge, b, c).requests;
        }
      }
    }
  }
}
