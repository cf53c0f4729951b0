/** The MD5 strings the system compares: File::getMD5 over the library's context and mg_md5
    over mongoose's. */
module FileDigest {
  import opened Digits
  import opened Md5Spec
  import opened Md5Contexts

  /** One half of a byte as a hexadecimal digit. */
  function HexDigit(j: Octet): char
    requires j < 16
  {
    if j <= 9 then '0' + (j as char) else 'a' + ((j - 10) as char)
  }

  function HexPair(b: Octet): string {
    var low: Octet := 0xf;
    HexBounds(b);
    [HexDigit((b >> 4) & low), HexDigit(b & low)]
  }

  lemma HexBounds(b: Octet)
    ensures (b >> 4) & 0xf < 16 && b & 0xf < 16
  {
  }

  function Hex(bytes: seq<Octet>): (h: string)
    ensures |h| == 2 * |bytes|
  {
    if bytes == [] then [] else Hex(bytes[..|bytes| - 1]) + HexPair(bytes[|bytes| - 1])
  }

  /** The two characters from `at` on are the hexadecimal digits of the byte, high half first. */
  predicate Spells(s: string, at: nat, b: Octet) {
    && at + 1 < |s| && s[at] in DIGITS && s[at + 1] in DIGITS
    && 16 * Place(s[at]) + Place(s[at + 1]) == b as int
  }

  lemma HexDigitPlace(j: Octet)
    requires j < 16
    ensures HexDigit(j) in DIGITS && Place(HexDigit(j)) == j as int
  {
    assert DIGITS[j as int] == HexDigit(j);
    PlaceOf(HexDigit(j), j as int);
  }

  lemma HalvesOfByte(b: Octet)
    ensures 16 * (((b >> 4) & 0xf) as int) + (b & 0xf) as int == b as int
  {
  }

  lemma HexPairSpells(b: Octet)
    ensures Spells(HexPair(b), 0, b)
  {
    HexBounds(b);
    HexDigitPlace((b >> 4) & 0xf);
    HexDigitPlace(b & 0xf);
    HalvesOfByte(b);
  }

  /** The string is the bytes, two digits each, high half first. */
  lemma {:induction false} HexSpells(bytes: seq<Octet>, i: nat)
    requires i < |bytes|
    ensures Spells(Hex(bytes), 2 * i, bytes[i])
  {
    var n := |bytes| - 1;
    HexPairSpells(bytes[n]);
    if i < n { HexSpells(bytes[..n], i); }
  }

  lemma HexIsDigits(bytes: seq<Octet>, k: nat)
    requires k < 2 * |bytes|
    ensures Hex(bytes)[k] in DIGITS
  {
    HexSpells(bytes, k / 2);
    assert k == 2 * (k / 2) || k == 2 * (k / 2) + 1;
  }

  lemma HexDigitIsOneToOne(i: Octet, j: Octet)
    requires i < 16 && j < 16 && HexDigit(i) == HexDigit(j)
    ensures i == j
  {
  }

  lemma HalvesMakeByte(a: Octet, b: Octet)
    requires (a >> 4) & 0xf == (b >> 4) & 0xf && a & 0xf == b & 0xf
    ensures a == b
  {
  }

  lemma HexPairIsOneToOne(a: Octet, b: Octet)
    requires HexPair(a) == HexPair(b)
    ensures a == b
  {
    HexBounds(a);
    HexBounds(b);
    assert HexPair(a)[0] == HexPair(b)[0] && HexPair(a)[1] == HexPair(b)[1];
    HexDigitIsOneToOne((a >> 4) & 0xf, (b >> 4) & 0xf);
    HexDigitIsOneToOne(a & 0xf, b & 0xf);
    HalvesMakeByte(a, b);
  }

  lemma {:induction false} HexIsOneToOne(a: seq<Octet>, b: seq<Octet>)
    requires |a| == |b| && Hex(a) == Hex(b)
    ensures a == b
  {
    if a != [] {
      var n := |a| - 1;
      assert Hex(a)[..2 * n] == Hex(a[..n]) && Hex(b)[..2 * n] == Hex(b[..n]);
      assert Hex(a)[2 * n..] == HexPair(a[n]) && Hex(b)[2 * n..] == HexPair(b[n]);
      HexIsOneToOne(a[..n], b[..n]);
      HexPairIsOneToOne(a[n], b[n]);
      assert a == a[..n] + [a[n]] && b == b[..n] + [b[n]];
    }
  }

  lemma {:induction false} HexOfPrefix(a: seq<Octet>, n: nat)
    requires n <= |a|
    ensures Hex(a)[..2 * n] == Hex(a[..n])
  {
    if n == |a| {
      assert a[..n] == a;
    } else {
      var m := |a| - 1;
      HexOfPrefix(a[..m], n);
      assert a[..m][..n] == a[..n];
      assert Hex(a)[..2 * m] == Hex(a[..m]);
      assert Hex(a)[..2 * n] == Hex(a)[..2 * m][..2 * n];
    }
  }

  /** The characters of a C string, up to the terminating NUL. */
  function CString(a: string): string {
    if a == [] || a[0] == '\0' then [] else [a[0]] + CString(a[1..])
  }

  lemma {:induction false} CStringUpToNul(a: string, n: nat)
    requires n < |a| && a[n] == '\0' && forall k :: 0 <= k < n ==> a[k] != '\0'
    ensures CString(a) == a[..n]
  {
    if n > 0 {
      CStringUpToNul(a[1..], n - 1);
      assert a[..n] == [a[0]] + a[1..][..n - 1];
    }
  }

  lemma {:induction false} HexHasNoNul(a: seq<Octet>, k: nat)
    requires k < 2 * |a|
    ensures Hex(a)[k] != '\0'
  {
    var n := |a| - 1;
    HexBounds(a[n]);
    if k < 2 * n { HexHasNoNul(a[..n], k); }
  }

  /** MD5::CvtHex: 32 digits are written, then a NUL at index 16. */
  method CvtHex(digest: seq<Octet>, hex: array<char>)
    requires |digest| == 16 && hex.Length == 32
    modifies hex
    ensures hex[..] == Hex(digest)[16 := '\0']
    ensures forall k :: 0 <= k < 16 && k != 8 ==> Spells(hex[..], 2 * k, digest[k])
  {
    var i := 0;
    while i < 16
      invariant i <= 16 && hex[..2 * i] == Hex(digest[..i])
    {
      var low: Octet := 0xf;
      HexBounds(digest[i]);
      assert digest[..i + 1][..i] == digest[..i];
      hex[i * 2] := HexDigit((digest[i] >> 4) & low);
      hex[i * 2 + 1] := HexDigit(digest[i] & low);
      assert hex[..2 * (i + 1)] == hex[..2 * i] + HexPair(digest[i]);
      i := i + 1;
    }
    assert digest[..16] == digest && hex[..32] == hex[..];
    hex[16] := '\0';
    forall k | 0 <= k < 16 && k != 8 ensures Spells(hex[..], 2 * k, digest[k]) {
      HexSpells(digest, k);
      assert hex[..][2 * k] == Hex(digest)[2 * k] && hex[..][2 * k + 1] == Hex(digest)[2 * k + 1];
    }
  }

  const READ_SIZE := 16 * 1024

  /** The reading loop of File::getMD5: blocks of 16K go into one context. */
  method HashFile(content: seq<Octet>) returns (digest: seq<Octet>)
    ensures digest == Md5(content)
  {
    hide Md5, Blocks, Chained, Compress, Words, Padded, Md5State, Holds;
    var context := new LibraryContext();
    var done := 0;
    while done < |content|
      invariant done <= |content| && context.Valid() && context.message == content[..done]
      invariant fresh(context) && fresh(context.buf) && fresh(context.block)
    {
      var read := if |content| - done < READ_SIZE then |content| - done else READ_SIZE;
      assert content[..done + read] == content[..done] + content[done..done + read];
      context.Update(content[done..done + read]);
      done := done + read;
    }
    assert content[..|content|] == content;
    digest := context.Final();
  }

  /** File::getMD5.  The NUL that CvtHex writes in the middle makes the returned string the
      digits of the first eight bytes only. */
  method GetMD5(content: seq<Octet>) returns (s: string)
    ensures s == FileMd5(content)
    ensures |s| == 16 && forall k :: 0 <= k < 8 ==> Spells(s, 2 * k, Md5(content)[k])
  {
    hide Md5, Blocks, Compress, Words, Padded, Md5State;
    var digest := HashFile(content);
    var hex := new char[32];
    CvtHex(digest, hex);
    s := CString(hex[..]);
    HexOfPrefix(digest, 8);
    forall k | 0 <= k < 16 ensures hex[..][k] != '\0' { HexHasNoNul(digest, k); }
    CStringUpToNul(hex[..], 16);
    assert hex[..][..16] == Hex(digest)[..16];
    forall k | 0 <= k < 8 ensures Spells(s, 2 * k, digest[k]) { HexSpells(digest[..8], k); }
  }

  /** The string of File::getMD5. */
  function FileMd5(content: seq<Octet>): string {
    Hex(Md5(content)[..8])
  }

  /** Two files have the same string exactly when the first eight bytes of their digests
      agree. */
  lemma FileMd5ComparesHalf(a: seq<Octet>, b: seq<Octet>)
    ensures FileMd5(a) == FileMd5(b) <==> Md5(a)[..8] == Md5(b)[..8]
  {
    if FileMd5(a) == FileMd5(b) { HexIsOneToOne(Md5(a)[..8], Md5(b)[..8]); }
  }

  /** mg_md5: the digest of the concatenated arguments, all of it in hexadecimal. */
  method MgMd5(parts: seq<seq<Octet>>) returns (s: string)
    requires forall k :: 0 <= k < |parts| ==> |parts[k]| < WORD_RANGE
    ensures s == Hex(Md5(Concatenated(parts)))
    ensures |s| == 32 && forall k :: 0 <= k < 16 ==> Spells(s, 2 * k, Md5(Concatenated(parts))[k])
  {
    hide Md5, Blocks, Chained, Compress, Words, Padded, Md5State, Holds;
    var context := new MongooseContext();
    for k := 0 to |parts|
      invariant context.Valid() && context.message == Concatenated(parts[..k])
      invariant fresh(context) && fresh(context.buf) && fresh(context.block)
    {
      assert parts[..k + 1][..k] == parts[..k];
      context.Update(parts[k]);
    }
    assert parts[..|parts|] == parts;
    var digest := context.Final();
    s := BinToString(digest);
    forall k | 0 <= k < 16 ensures Spells(s, 2 * k, digest[k]) { HexSpells(digest, k); }
  }

  method BinToString(bytes: seq<Octet>) returns (s: string)
    ensures s == Hex(bytes)
  {
    s := "";
    for k := 0 to |bytes|
      invariant s == Hex(bytes[..k])
    {
      assert bytes[..k + 1][..k] == bytes[..k];
      s := s + HexPair(bytes[k]);
    }
    assert bytes[..|bytes|] == bytes;
  }
}
