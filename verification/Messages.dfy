/** The messages two sockets exchange.  The XML text is left to a codec. */
module Messages {
  import opened Wrappers

  newtype Byte = b: int | 0 <= b < 256

  const MAX_BLOCK: nat := 0xFFFF
  const TYPE_PROTOCOL: Byte := 83  // 'S'
  const TYPE_BINARY: Byte := 66    // 'B'

  /** Requests and answers of the file transfer, and everything else, which goes to the
      owner of the socket. */
  datatype Message =
    | FileRequest(name: string, dir: string, size: nat)  // request 10
    | FileAnswer(status: int)                            // answer 10
    | CheckRequest(md5: string)                          // request 11
    | CheckAnswer(status: int)                           // answer 11
    | Other(text: string)

  /** A protocol message: msg_id and the element inside. */
  datatype Packet = Packet(id: int, message: Message)

  type Parser = seq<Byte> -> Option<Packet>

  type Printer = Packet -> seq<Byte>

  /** What is printed is read back. */
  ghost predicate Faithful(printer: Printer, parse: Parser) {
    forall p :: parse(printer(p)) == Some(p)
  }

  /** Everything in the chunks, one after the other. */
  function Flat(chunks: seq<seq<Byte>>): seq<Byte> {
    if chunks == [] then [] else chunks[0] + Flat(chunks[1..])
  }

  lemma {:induction false} FlatOfTwo(a: seq<seq<Byte>>, b: seq<seq<Byte>>)
    ensures Flat(a + b) == Flat(a) + Flat(b)
    decreases |a|
  {
    if a == [] {
      assert a + b == b;
    } else {
      FlatOfTwo(a[1..], b);
      assert (a + b)[1..] == a[1..] + b;
    }
  }
}
