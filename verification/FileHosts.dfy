/** The sums the file transfer and the update of modules compare are those of getMD5. */
module FileHosts {
  import opened Archives
  import opened Digits
  import opened FileDigest
  import opened FileTransfer
  import opened Md5Spec
  import opened Messages

  function Octets(content: seq<Byte>): (octets: seq<Octet>)
    ensures |octets| == |content|
  {
    seq(|content|, i requires 0 <= i < |content| => content[i] as int as Octet)
  }

  function SumOfFile(content: seq<Byte>): string {
    FileMd5(Octets(content))
  }

  /** A host whose getMD5 is the library's. */
  function Md5Host(place: (string, string) -> string, writable: string -> bool): Host {
    Host(SumOfFile, place, writable)
  }

  /** A received file is kept, whatever it holds, exactly if the first halves of its digest and
      of the digest of what was sent agree. */
  lemma FileIsKeptIff(place: (string, string) -> string, writable: string -> bool, e: Endpoint, sent: seq<Byte>)
    requires e.current in e.files
    ensures var f := ReceiveDone(Md5Host(place, writable), e, SumOfFile(sent));
            var agree := Md5(Octets(sent))[..8] == Md5(Octets(e.files[e.current]))[..8];
            && (e.current in f.files <==> agree)
            && f.received == e.received + [Receipt(e.current, agree)]
  {
    hide Md5;
    FileMd5ComparesHalf(Octets(sent), Octets(e.files[e.current]));
  }

  lemma SumHasNoMark(content: seq<Byte>)
    ensures Free(SumOfFile(content), ';')
  {
    hide Md5, Hex;
    var half := Md5(Octets(content))[..8];
    assert ';' !in DIGITS;
    forall i | 0 <= i < |Hex(half)| ensures Hex(half)[i] != ';' { HexIsDigits(half, i); }
  }

  /** Two directories have the same sum exactly if they list the same paths, and the first
      halves of the digests of their files agree: for all names without '/' and ':'. */
  lemma DirectoriesAgreeIff(a: seq<Entry>, b: seq<Entry>)
    requires forall i :: 0 <= i < |FilesList(a)| ==>
      Names(FilesList(a)[i].path) && Free(Joined(FilesList(a)[i].path), ':')
    requires forall i :: 0 <= i < |FilesList(b)| ==>
      Names(FilesList(b)[i].path) && Free(Joined(FilesList(b)[i].path), ':')
    ensures DirMD5(SumOfFile, a) == DirMD5(SumOfFile, b) <==>
            |FilesList(a)| == |FilesList(b)| && forall i :: 0 <= i < |FilesList(a)| ==>
              FilesList(a)[i].path == FilesList(b)[i].path &&
              Md5(Octets(FilesList(a)[i].bytes))[..8] == Md5(Octets(FilesList(b)[i].bytes))[..8]
  {
    hide Md5, DirMD5, Names;
    var x, y := FilesList(a), FilesList(b);
    forall i | 0 <= i < |x| ensures Free(SumOfFile(x[i].bytes), ';') { SumHasNoMark(x[i].bytes); }
    forall i | 0 <= i < |y| ensures Free(SumOfFile(y[i].bytes), ';') { SumHasNoMark(y[i].bytes); }
    DirSumsAgreeIff(SumOfFile, a, b);
    forall i | 0 <= i < |x| && i < |y|
      ensures SumOfFile(x[i].bytes) == SumOfFile(y[i].bytes) <==>
              Md5(Octets(x[i].bytes))[..8] == Md5(Octets(y[i].bytes))[..8]
    {
      FileMd5ComparesHalf(Octets(x[i].bytes), Octets(y[i].bytes));
    }
  }
}
