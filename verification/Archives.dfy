/** Module directories: their file lists and sums, archives of them, and the update of a
    client's copy from an archive. */
module Archives {
  import opened Wrappers
  import opened Messages
  import opened Framing

  /** What is in a directory.  `exe` is the permission to execute. */
  datatype Tree = Leaf(bytes: seq<Byte>, exe: bool) | Folder(entries: seq<Entry>)

  datatype Entry = Entry(name: string, tree: Tree)

  const CVS: string := "CVS"

  // ---- the order in which a directory is listed -----------------------------------------

  predicate Below(a: string, b: string) {
    if b == [] then false
    else if a == [] then true
    else if a[0] != b[0] then a[0] < b[0]
    else Below(a[1..], b[1..])
  }

  lemma {:induction false} BelowIsTotal(a: string, b: string)
    ensures a == b || Below(a, b) || Below(b, a)
    ensures Below(a, b) ==> !Below(b, a) && a != b
    decreases |a|
  {
    if a != [] && b != [] && a[0] == b[0] {
      BelowIsTotal(a[1..], b[1..]);
      assert a == [a[0]] + a[1..] && b == [b[0]] + b[1..];
    }
  }

  lemma {:induction false} BelowIsTransitive(a: string, b: string, c: string)
    requires Below(a, b) && Below(b, c)
    ensures Below(a, c)
    decreases |a|
  {
    if a != [] && a[0] == b[0] == c[0] { BelowIsTransitive(a[1..], b[1..], c[1..]); }
  }

  predicate Ascending(es: seq<Entry>) {
    forall i, j :: 0 <= i < j < |es| ==> Below(es[i].name, es[j].name)
  }

  /** Listed in order, at every level. */
  predicate Ordered(es: seq<Entry>) {
    Ascending(es) && forall i :: 0 <= i < |es| ==> OrderedTree(es[i].tree)
  }

  predicate OrderedTree(t: Tree) {
    t.Folder? ==> Ordered(t.entries)
  }

  // ---- listing --------------------------------------------------------------------------

  /** A file with its path from the directory that is listed. */
  datatype Item = Item(path: seq<string>, bytes: seq<Byte>, exe: bool)

  function Under(name: string, items: seq<Item>): (r: seq<Item>)
    ensures |r| == |items|
    ensures forall i :: 0 <= i < |items| ==> r[i] == items[i].(path := [name] + items[i].path)
  {
    seq(|items|, i requires 0 <= i < |items| => items[i].(path := [name] + items[i].path))
  }

  function FilesOf(e: Entry): seq<Item>
    decreases e
  {
    if e.name == CVS then []
    else
      match e.tree
      case Leaf(bytes, exe) => [Item([e.name], bytes, exe)]
      case Folder(es) => Under(e.name, FilesList(es))
  }

  /** getFilesList, with what is read of the files listed. */
  function FilesList(es: seq<Entry>): seq<Item>
    decreases es
  {
    if es == [] then [] else FilesOf(es[0]) + FilesList(es[1..])
  }

  /** getDirMD5. */
  function DirMD5(digest: seq<Byte> -> string, es: seq<Entry>): string {
    SumOf(digest, FilesList(es))
  }

  function SumOf(digest: seq<Byte> -> string, items: seq<Item>): string {
    if items == [] then ""
    else
      var last := items[|items| - 1];
      SumOf(digest, items[..|items| - 1]) + Joined(last.path) + ":" + digest(last.bytes) + ";"
  }

  function Joined(path: seq<string>): string {
    if path == [] then "" else if |path| == 1 then path[0] else path[0] + "/" + Joined(path[1..])
  }

  // ---- what a sum says --------------------------------------------------------------------

  predicate Free(s: string, c: char) {
    forall i :: 0 <= i < |s| ==> s[i] != c
  }

  /** Two strings with a mark after each, which neither holds: the parts agree. */
  lemma SplitAtMark(a: string, x: string, b: string, y: string, mark: char)
    requires Free(a, mark) && Free(b, mark) && a + [mark] + x == b + [mark] + y
    ensures a == b && x == y
  {
    var s := a + [mark] + x;
    assert s == b + [mark] + y;
    assert s[|a|] == mark && s[|b|] == mark;
    assert forall i :: 0 <= i < |a| ==> s[i] == a[i] && s[i] != mark;
    assert forall i :: 0 <= i < |b| ==> s[i] == b[i] && s[i] != mark;
    assert s[..|a|] == a && s[..|b|] == b;
    assert s[|a| + 1..] == x && s[|b| + 1..] == y;
  }

  function SumOfOne(digest: seq<Byte> -> string, item: Item): string {
    Joined(item.path) + ":" + digest(item.bytes) + ";"
  }

  lemma SumAtEnd(digest: seq<Byte> -> string, items: seq<Item>)
    requires items != []
    ensures SumOf(digest, items) == SumOf(digest, items[..|items| - 1]) + SumOfOne(digest, items[|items| - 1])
  {
    hide Joined;
    var last, before := items[|items| - 1], SumOf(digest, items[..|items| - 1]);
    Regrouped(before, Joined(last.path), ":", digest(last.bytes), ";");
  }

  lemma Regrouped(a: string, b: string, c: string, d: string, e: string)
    ensures a + b + c + d + e == a + (b + c + d + e)
  {
  }

  lemma {:induction false} SumFromFront(digest: seq<Byte> -> string, items: seq<Item>)
    requires items != []
    ensures SumOf(digest, items) == SumOfOne(digest, items[0]) + SumOf(digest, items[1..])
  {
    hide SumOf, SumOfOne;
    var last := |items| - 1;
    SumAtEnd(digest, items);
    EmptySum(digest, []);
    if last == 0 {
      assert items[..0] == [] && items[1..] == [];
    } else {
      SumFromFront(digest, items[..last]);
      SumAtEnd(digest, items[1..]);
      assert items[..last][1..] == items[1..][..last - 1] && items[1..][last - 1] == items[last];
    }
  }

  /** Neither the paths nor the sums hold one of the two marks. */
  predicate Unmarked(digest: seq<Byte> -> string, items: seq<Item>) {
    forall i :: 0 <= i < |items| ==>
      Free(Joined(items[i].path), ':') && Free(digest(items[i].bytes), ';')
  }

  /** The files agree in path and sum, one by one. */
  predicate SamePathsAndSums(digest: seq<Byte> -> string, a: seq<Item>, b: seq<Item>) {
    |a| == |b| && forall i :: 0 <= i < |a| ==>
      Joined(a[i].path) == Joined(b[i].path) && digest(a[i].bytes) == digest(b[i].bytes)
  }

  lemma {:induction false} SumsAgreeIff(digest: seq<Byte> -> string, a: seq<Item>, b: seq<Item>)
    requires Unmarked(digest, a) && Unmarked(digest, b)
    ensures SumOf(digest, a) == SumOf(digest, b) <==> SamePathsAndSums(digest, a, b)
    decreases |a|
  {
    hide SumOf;
    EmptySum(digest, a);
    EmptySum(digest, b);
    if a != [] && b != [] {
      SumFromFront(digest, a);
      SumFromFront(digest, b);
      SumsAgreeIff(digest, a[1..], b[1..]);
      var pa, pb, da, db := Joined(a[0].path), Joined(b[0].path), digest(a[0].bytes), digest(b[0].bytes);
      var ra, rb := SumOf(digest, a[1..]), SumOf(digest, b[1..]);
      assert SumOf(digest, a) == pa + [':'] + (da + [';'] + ra) && SumOf(digest, b) == pb + [':'] + (db + [';'] + rb);
      if SumOf(digest, a) == SumOf(digest, b) {
        SplitAtMark(pa, da + [';'] + ra, pb, db + [';'] + rb, ':');
        SplitAtMark(da, ra, db, rb, ';');
        forall i | 0 <= i < |a|
          ensures Joined(a[i].path) == Joined(b[i].path) && digest(a[i].bytes) == digest(b[i].bytes)
        {
          if i > 0 { assert a[1..][i - 1] == a[i] && b[1..][i - 1] == b[i]; }
        }
      }
      if SamePathsAndSums(digest, a, b) {
        forall i | 0 <= i < |a| - 1
          ensures Joined(a[1..][i].path) == Joined(b[1..][i].path) && digest(a[1..][i].bytes) == digest(b[1..][i].bytes)
        {
          assert a[1..][i] == a[i + 1] && b[1..][i] == b[i + 1];
        }
      }
    }
  }

  lemma EmptySum(digest: seq<Byte> -> string, items: seq<Item>)
    ensures SumOf(digest, items) == "" <==> items == []
  {
  }

  /** Names in a path: not empty, and without the separator. */
  predicate Names(path: seq<string>) {
    path != [] && forall i :: 0 <= i < |path| ==> path[i] != "" && Free(path[i], '/')
  }

  lemma Slashes(path: seq<string>)
    requires Names(path)
    ensures Free(Joined(path), '/') <==> |path| == 1
  {
    if |path| > 1 {
      assert Joined(path) == path[0] + ['/'] + Joined(path[1..]);
      assert Joined(path)[|path[0]|] == '/';
    }
  }

  lemma {:induction false} JoinedIsOneToOne(a: seq<string>, b: seq<string>)
    requires Names(a) && Names(b)
    ensures Joined(a) == Joined(b) <==> a == b
    decreases |a|
  {
    Slashes(a);
    Slashes(b);
    if Joined(a) == Joined(b) {
      if |a| == 1 {
        assert a == [a[0]] && b == [b[0]];
      } else {
        assert Joined(a) == a[0] + ['/'] + Joined(a[1..]) && Joined(b) == b[0] + ['/'] + Joined(b[1..]);
        SplitAtMark(a[0], Joined(a[1..]), b[0], Joined(b[1..]), '/');
        JoinedIsOneToOne(a[1..], b[1..]);
        assert a == [a[0]] + a[1..] && b == [b[0]] + b[1..];
      }
    }
  }

  /** The sums of two directories agree exactly if they list the same paths with the same file
      sums, in order: for every digest that holds no ';', and names without '/' and ':'. */
  lemma DirSumsAgreeIff(digest: seq<Byte> -> string, a: seq<Entry>, b: seq<Entry>)
    requires forall i :: 0 <= i < |FilesList(a)| ==> Names(FilesList(a)[i].path)
    requires forall i :: 0 <= i < |FilesList(b)| ==> Names(FilesList(b)[i].path)
    requires Unmarked(digest, FilesList(a)) && Unmarked(digest, FilesList(b))
    ensures DirMD5(digest, a) == DirMD5(digest, b) <==>
            |FilesList(a)| == |FilesList(b)| && forall i :: 0 <= i < |FilesList(a)| ==>
              FilesList(a)[i].path == FilesList(b)[i].path &&
              digest(FilesList(a)[i].bytes) == digest(FilesList(b)[i].bytes)
  {
    hide SumOf, Names;
    var x, y := FilesList(a), FilesList(b);
    SumsAgreeIff(digest, x, y);
    if |x| == |y| {
      forall i | 0 <= i < |x| ensures Joined(x[i].path) == Joined(y[i].path) <==> x[i].path == y[i].path {
        JoinedIsOneToOne(x[i].path, y[i].path);
      }
    }
  }

  /** With the same paths in both, whatever characters they hold, and sums of one length: exactly
      if the file sums agree. */
  lemma {:induction false} SamePathsSumsAgreeIff(digest: seq<Byte> -> string, a: seq<Item>, b: seq<Item>)
    requires |a| == |b| && forall i :: 0 <= i < |a| ==>
      Joined(a[i].path) == Joined(b[i].path) && |digest(a[i].bytes)| == |digest(b[i].bytes)|
    ensures SumOf(digest, a) == SumOf(digest, b) <==>
            forall i :: 0 <= i < |a| ==> digest(a[i].bytes) == digest(b[i].bytes)
    decreases |a|
  {
    hide SumOf;
    EmptySum(digest, []);
    if a != [] {
      SumFromFront(digest, a);
      SumFromFront(digest, b);
      assert forall i :: 0 < i < |a| ==> a[i] == a[1..][i - 1] && b[i] == b[1..][i - 1];
      SamePathsSumsAgreeIff(digest, a[1..], b[1..]);
      var path, da, db := Joined(a[0].path), digest(a[0].bytes), digest(b[0].bytes);
      SplitAtLength(SumOfOne(digest, a[0]), SumOf(digest, a[1..]), SumOfOne(digest, b[0]), SumOf(digest, b[1..]));
      SplitAtLength(path + ":", da + ";", path + ":", db + ";");
      SplitAtLength(da, ";", db, ";");
      Chained(path, ":", da, ";");
      Chained(path, ":", db, ";");
    }
  }

  lemma SplitAtLength(a: string, x: string, b: string, y: string)
    requires |a| == |b|
    ensures a + x == b + y <==> a == b && x == y
  {
    if a + x == b + y {
      assert (a + x)[..|a|] == a && (b + y)[..|b|] == b;
      assert (a + x)[|a|..] == x && (b + y)[|b|..] == y;
    }
  }

  lemma Chained(a: string, b: string, c: string, d: string)
    ensures a + b + c + d == (a + b) + (c + d)
  {
  }

  // ---- clearing and writing -------------------------------------------------------------

  /** recursiveRemoveDirectoryContent: what is called CVS stays, and with it every directory
      it is in. */
  function Clear(es: seq<Entry>): seq<Entry>
    decreases es
  {
    if es == [] then [] else ClearEntry(es[0]) + Clear(es[1..])
  }

  function ClearEntry(e: Entry): seq<Entry>
    decreases e
  {
    if e.name == CVS then [e]
    else
      match e.tree
      case Leaf(_, _) => []
      case Folder(es) => if Clear(es) == [] then [] else [Entry(e.name, Folder(Clear(es)))]
  }

  function Find(es: seq<Entry>, name: string): Option<Tree> {
    if es == [] then None else if es[0].name == name then Some(es[0].tree) else Find(es[1..], name)
  }

  function Set(es: seq<Entry>, name: string, t: Tree): seq<Entry> {
    if es == [] then [Entry(name, t)]
    else if es[0].name == name then [Entry(name, t)] + es[1..]
    else if Below(name, es[0].name) then [Entry(name, t)] + es
    else [es[0]] + Set(es[1..], name, t)
  }

  /** Writes one file, with the directories above it; fails where a file is in the way of a
      directory or a directory in the way of the file. */
  function Put(es: seq<Entry>, item: Item): Option<seq<Entry>>
    requires item.path != []
    decreases |item.path|
  {
    var name, found := item.path[0], Find(es, item.path[0]);
    if |item.path| == 1 then
      match found
      case Some(Folder(_)) => None
      case Some(Leaf(_, exe)) => Some(Set(es, name, Leaf(item.bytes, exe || item.exe)))
      case None => Some(Set(es, name, Leaf(item.bytes, item.exe)))
    else
      var below := match found case Some(t) => t case None => Folder([]);
      if below.Leaf? then None
      else
        match Put(below.entries, item.(path := item.path[1..]))
        case Some(sub) => Some(Set(es, name, Folder(sub)))
        case None => None
  }

  predicate Rooted(items: seq<Item>) {
    forall i :: 0 <= i < |items| ==> items[i].path != []
  }

  function PutAll(es: seq<Entry>, items: seq<Item>): Option<seq<Entry>>
    requires Rooted(items)
    decreases |items|
  {
    if items == [] then Some(es)
    else
      match Put(es, items[0])
      case Some(fs) => PutAll(fs, items[1..])
      case None => None
  }

  // ---- groups: the files under one name ---------------------------------------------------

  function Group(es: seq<Entry>, name: string): seq<Item> {
    match Find(es, name) case Some(t) => FilesOf(Entry(name, t)) case None => []
  }

  lemma {:induction false} FindSet(es: seq<Entry>, name: string, t: Tree, other: string)
    ensures Find(Set(es, name, t), other) == if other == name then Some(t) else Find(es, other)
    decreases |es|
  {
    if es != [] && es[0].name != name && !Below(name, es[0].name) {
      FindSet(es[1..], name, t, other);
      assert Set(es, name, t)[1..] == Set(es[1..], name, t);
    } else if es != [] {
      assert Set(es, name, t)[1..] == if es[0].name == name then es[1..] else es;
    } else {
      assert Set(es, name, t)[1..] == [];
    }
  }

  lemma {:induction false} SetTwice(es: seq<Entry>, name: string, t: Tree, u: Tree)
    ensures Set(Set(es, name, t), name, u) == Set(es, name, u)
    decreases |es|
  {
    if es != [] && es[0].name != name && !Below(name, es[0].name) {
      SetTwice(es[1..], name, t, u);
      assert Set(es, name, t)[1..] == Set(es[1..], name, t);
    } else if es != [] {
      assert Set(es, name, t)[1..] == if es[0].name == name then es[1..] else es;
    } else {
      assert Set(es, name, t)[1..] == [];
    }
  }

  lemma {:induction false} SetNames(es: seq<Entry>, name: string, t: Tree, i: nat)
    requires i < |Set(es, name, t)|
    ensures Set(es, name, t)[i] == Entry(name, t) || Set(es, name, t)[i] in es
    decreases |es|
  {
    if es != [] && es[0].name != name && !Below(name, es[0].name) {
      if i > 0 { SetNames(es[1..], name, t, i - 1); }
    }
  }

  lemma {:induction false} SetOrdered(es: seq<Entry>, name: string, t: Tree)
    requires Ordered(es) && OrderedTree(t)
    ensures Ordered(Set(es, name, t))
    decreases |es|
  {
    var r := Set(es, name, t);
    forall i | 0 <= i < |r| ensures OrderedTree(r[i].tree) { SetNames(es, name, t, i); }
    if es != [] {
      BelowIsTotal(es[0].name, name);
      if es[0].name != name && !Below(name, es[0].name) {
        SetOrdered(es[1..], name, t);
        forall j | 0 < j < |r| ensures Below(r[0].name, r[j].name) {
          assert r[j] == Set(es[1..], name, t)[j - 1];
          SetNames(es[1..], name, t, j - 1);
        }
        assert Ascending(r);
      } else if es[0].name != name {
        forall j | 0 < j < |r| ensures Below(r[0].name, r[j].name) {
          if j > 1 { BelowIsTransitive(name, es[0].name, es[j - 1].name); }
        }
      }
    }
  }

  lemma {:induction false} FindBelow(es: seq<Entry>, name: string)
    requires forall i :: 0 <= i < |es| ==> es[i].name != name
    ensures Find(es, name) == None
    decreases |es|
  {
    if es != [] { FindBelow(es[1..], name); }
  }

  /** The names after the first are others. */
  lemma TailNames(es: seq<Entry>)
    requires es != [] && Ordered(es)
    ensures Ordered(es[1..]) && Find(es[1..], es[0].name) == None
    ensures Group(es, es[0].name) == FilesOf(es[0])
    ensures forall m :: m != es[0].name ==> Group(es[1..], m) == Group(es, m)
  {
    forall i | 0 <= i < |es[1..]| ensures es[1..][i].name != es[0].name { BelowIsTotal(es[0].name, es[i + 1].name); }
    FindBelow(es[1..], es[0].name);
    assert Entry(es[0].name, es[0].tree) == es[0];
  }

  /** Directories with the same files under each name list the same files. */
  lemma {:induction false} GroupsMakeList(a: seq<Entry>, b: seq<Entry>)
    requires Ordered(a) && Ordered(b)
    requires forall m :: Group(a, m) == Group(b, m)
    ensures FilesList(a) == FilesList(b)
    decreases |a| + |b|
  {
    if a == [] && b == [] {
    } else if a == [] || (b != [] && Below(b[0].name, a[0].name)) {
      SkipHead(b, a);
      GroupsMakeList(a, b[1..]);
    } else if b == [] || Below(a[0].name, b[0].name) {
      SkipHead(a, b);
      GroupsMakeList(a[1..], b);
    } else {
      BelowIsTotal(a[0].name, b[0].name);
      TailNames(a);
      TailNames(b);
      var n := a[0].name;
      assert Group(a[1..], n) == [] == Group(b[1..], n);
      forall m ensures Group(a[1..], m) == Group(b[1..], m) {
        if m != n { assert Group(a[1..], m) == Group(a, m) == Group(b, m) == Group(b[1..], m); }
      }
      GroupsMakeList(a[1..], b[1..]);
    }
  }

  /** A first name the other directory does not have has no files under it. */
  lemma SkipHead(a: seq<Entry>, b: seq<Entry>)
    requires Ordered(a) && Ordered(b) && a != [] && (b == [] || Below(a[0].name, b[0].name))
    requires forall m :: Group(a, m) == Group(b, m)
    ensures Ordered(a[1..]) && FilesList(a) == FilesList(a[1..])
    ensures forall m :: Group(a[1..], m) == Group(b, m)
  {
    var n := a[0].name;
    TailNames(a);
    forall i | 0 <= i < |b| ensures b[i].name != n {
      BelowIsTotal(n, b[0].name);
      if i > 0 {
        BelowIsTransitive(n, b[0].name, b[i].name);
        BelowIsTotal(n, b[i].name);
      }
    }
    FindBelow(b, n);
    assert Group(b, n) == [] && FilesOf(a[0]) == [];
    forall m ensures Group(a[1..], m) == Group(b, m) {
      if m != n { assert Group(a[1..], m) == Group(a, m); }
    }
  }

  // ---- the update -----------------------------------------------------------------------

  /** No file of the source is where a directory has been left. */
  predicate Compatible(src: seq<Entry>, left: seq<Entry>)
    decreases src
  {
    src == [] || (CompatibleEntry(src[0], left) && Compatible(src[1..], left))
  }

  predicate CompatibleEntry(e: Entry, left: seq<Entry>)
    decreases e
  {
    e.name == CVS ||
    match (e.tree, Find(left, e.name))
    case (Leaf(_, _), Some(Folder(_))) => false
    case (Folder(es), Some(Folder(ls))) => Compatible(es, ls)
    case _ => true
  }

  lemma {:induction false} PutAllOfTwo(es: seq<Entry>, a: seq<Item>, b: seq<Item>)
    requires Rooted(a) && Rooted(b)
    ensures Rooted(a + b)
    ensures PutAll(es, a + b) == match PutAll(es, a) case Some(fs) => PutAll(fs, b) case None => None
    decreases |a|
  {
    if a == [] {
      assert a + b == b;
    } else {
      assert (a + b)[1..] == a[1..] + b && (a + b)[0] == a[0];
      match Put(es, a[0])
      case Some(fs) => PutAllOfTwo(fs, a[1..], b);
      case None =>
    }
  }

  lemma {:induction false} AllRooted(es: seq<Entry>)
    ensures Rooted(FilesList(es))
    decreases |es|
  {
    if es != [] {
      AllRooted(es[1..]);
      assert Rooted(FilesOf(es[0]));
    }
  }

  function SubFolder(es: seq<Entry>, name: string): Option<seq<Entry>> {
    match Find(es, name)
    case None => Some([])
    case Some(Folder(sub)) => Some(sub)
    case Some(Leaf(_, _)) => None
  }

  /** Files that belong under one directory go into that directory. */
  lemma {:induction false} PutUnder(es: seq<Entry>, name: string, items: seq<Item>)
    requires items != [] && Rooted(items) && SubFolder(es, name).Some?
    ensures Rooted(Under(name, items))
    ensures PutAll(es, Under(name, items)) ==
            match PutAll(SubFolder(es, name).value, items)
            case Some(sub) => Some(Set(es, name, Folder(sub)))
            case None => None
    decreases |items|
  {
    var sub, all := SubFolder(es, name).value, Under(name, items);
    assert all[0].path[1..] == items[0].path && all[0].(path := all[0].path[1..]) == items[0];
    assert all[1..] == Under(name, items[1..]);
    match Put(sub, items[0])
    case None =>
    case Some(one) =>
      var fs := Set(es, name, Folder(one));
      assert Put(es, all[0]) == Some(fs);
      FindSet(es, name, Folder(one), name);
      if items[1..] != [] {
        PutUnder(fs, name, items[1..]);
        match PutAll(one, items[1..])
        case Some(two) => SetTwice(es, name, Folder(one), Folder(two));
        case None =>
      }
  }

  /** The directory has no file that would be listed. */
  ghost predicate Cleared(es: seq<Entry>) {
    Ordered(es) && forall m :: Group(es, m) == []
  }

  ghost predicate AfterEntry(left: seq<Entry>, e: Entry, r: seq<Entry>) {
    && Ordered(r)
    && (forall m :: Group(r, m) == if m == e.name then FilesOf(e) else Group(left, m))
    && (forall m :: m != e.name ==> Find(r, m) == Find(left, m))
  }

  lemma {:induction false} PutEntry(left: seq<Entry>, e: Entry)
    requires OrderedTree(e.tree) && Ordered(left) && Group(left, e.name) == []
    ensures Rooted(FilesOf(e))
    ensures PutAll(left, FilesOf(e)).Some? <==> CompatibleEntry(e, left)
    ensures PutAll(left, FilesOf(e)).Some? ==> AfterEntry(left, e, PutAll(left, FilesOf(e)).value)
    decreases e, 1
  {
    if e.name == CVS {
      assert FilesOf(e) == [];
    } else {
      match e.tree
      case Leaf(bytes, exe) => PutLeaf(left, e.name, bytes, exe);
      case Folder(es) => PutFolder(left, e, es);
    }
  }

  lemma PutLeaf(left: seq<Entry>, name: string, bytes: seq<Byte>, exe: bool)
    requires Ordered(left) && Group(left, name) == [] && name != CVS
    ensures var e := Entry(name, Leaf(bytes, exe));
            && (PutAll(left, FilesOf(e)).Some? <==> CompatibleEntry(e, left))
            && (PutAll(left, FilesOf(e)).Some? ==> AfterEntry(left, e, PutAll(left, FilesOf(e)).value))
  {
    var e := Entry(name, Leaf(bytes, exe));
    var item := Item([name], bytes, exe);
    assert FilesOf(e) == [item] && [item][1..] == [];
    if Find(left, name) == None {
      var r := Set(left, name, Leaf(bytes, exe));
      assert Put(left, item) == Some(r);
      SetOrdered(left, name, Leaf(bytes, exe));
      SetGroups(left, e);
    } else {
      assert Find(left, name).value.Folder?;
      assert Put(left, item) == None;
    }
  }

  lemma SetGroups(left: seq<Entry>, e: Entry)
    ensures forall m :: Group(Set(left, e.name, e.tree), m) == if m == e.name then FilesOf(e) else Group(left, m)
    ensures forall m :: m != e.name ==> Find(Set(left, e.name, e.tree), m) == Find(left, m)
  {
    forall m ensures Find(Set(left, e.name, e.tree), m) == if m == e.name then Some(e.tree) else Find(left, m) {
      FindSet(left, e.name, e.tree, m);
    }
  }

  lemma {:induction false} FindOrdered(es: seq<Entry>, name: string)
    requires Ordered(es)
    ensures Find(es, name).Some? ==> OrderedTree(Find(es, name).value)
    decreases |es|
  {
    if es != [] { FindOrdered(es[1..], name); }
  }

  lemma {:induction false} NoGroups(es: seq<Entry>)
    requires Ordered(es) && FilesList(es) == []
    ensures forall m :: Group(es, m) == []
    decreases |es|
  {
    if es != [] {
      NoGroups(es[1..]);
      TailNames(es);
      forall m ensures Group(es, m) == [] {
        if m != es[0].name { assert Group(es, m) == Group(es[1..], m); }
      }
    }
  }

  lemma {:induction false} PutFolder(left: seq<Entry>, e: Entry, es: seq<Entry>)
    requires e.name != CVS && e.tree == Folder(es) && Ordered(es)
    requires Ordered(left) && Group(left, e.name) == []
    ensures Rooted(FilesOf(e))
    ensures PutAll(left, FilesOf(e)).Some? <==> CompatibleEntry(e, left)
    ensures PutAll(left, FilesOf(e)).Some? ==> AfterEntry(left, e, PutAll(left, FilesOf(e)).value)
    decreases e, 0
  {
    var name, items := e.name, FilesList(es);
    AllRooted(es);
    FindOrdered(left, name);
    assert SubFolder(left, name).Some?;
    var sub := SubFolder(left, name).value;
    assert FilesList(sub) == [] by {
      if Find(left, name).Some? { assert |Under(name, FilesList(sub))| == 0; }
    }
    assert Ordered(sub);
    NoGroups(sub);
    PutCleared(es, sub);
    CompatibleWithNothing(es);
    if items == [] {
      assert FilesOf(e) == [];
    } else {
      PutUnder(left, name, items);
      if PutAll(sub, items).Some? {
        var t := Folder(PutAll(sub, items).value);
        SetOrdered(left, name, t);
        SetGroups(left, Entry(name, t));
        assert FilesOf(Entry(name, t)) == FilesOf(e);
      }
    }
  }

  lemma {:induction false} CompatibleWithNothing(es: seq<Entry>)
    ensures Compatible(es, [])
    decreases |es|
  {
    if es != [] { CompatibleWithNothing(es[1..]); }
  }

  /** What has been put under other names does not get in the way. */
  lemma {:induction false} CompatibleElsewhere(es: seq<Entry>, a: seq<Entry>, b: seq<Entry>)
    requires forall i :: 0 <= i < |es| ==> Find(a, es[i].name) == Find(b, es[i].name)
    ensures Compatible(es, a) == Compatible(es, b)
    decreases |es|
  {
    if es != [] {
      assert Find(a, es[0].name) == Find(b, es[0].name);
      CompatibleElsewhere(es[1..], a, b);
    }
  }

  /** The state when the entries `es` have been put into `left`. */
  ghost predicate AfterAll(left: seq<Entry>, es: seq<Entry>, r: seq<Entry>) {
    Ordered(r) && forall m :: Group(r, m) == if Find(es, m).Some? then Group(es, m) else Group(left, m)
  }

  lemma {:induction false} PutEntries(es: seq<Entry>, left: seq<Entry>)
    requires Ordered(es) && Ordered(left)
    requires forall i :: 0 <= i < |es| ==> Group(left, es[i].name) == []
    ensures Rooted(FilesList(es))
    ensures PutAll(left, FilesList(es)).Some? <==> Compatible(es, left)
    ensures PutAll(left, FilesList(es)).Some? ==> AfterAll(left, es, PutAll(left, FilesList(es)).value)
    decreases es, 1
  {
    if es != [] {
      var e, rest := es[0], es[1..];
      assert Group(left, e.name) == [];
      PutEntry(left, e);
      AllRooted(rest);
      TailNames(es);
      PutAllOfTwo(left, FilesOf(e), FilesList(rest));
      if PutAll(left, FilesOf(e)).Some? {
        var now := PutAll(left, FilesOf(e)).value;
        forall i | 0 <= i < |rest|
          ensures Group(now, rest[i].name) == [] && Find(now, rest[i].name) == Find(left, rest[i].name)
        {
          BelowIsTotal(e.name, es[i + 1].name);
          assert rest[i] == es[i + 1];
        }
        CompatibleElsewhere(rest, now, left);
        PutEntries(rest, now);
        if PutAll(now, FilesList(rest)).Some? {
          AfterBoth(left, es, now, PutAll(now, FilesList(rest)).value);
        }
      }
    }
  }

  lemma AfterBoth(left: seq<Entry>, es: seq<Entry>, now: seq<Entry>, r: seq<Entry>)
    requires es != [] && Ordered(es) && AfterEntry(left, es[0], now) && AfterAll(now, es[1..], r)
    ensures AfterAll(left, es, r)
  {
    TailNames(es);
    forall m ensures Group(r, m) == if Find(es, m).Some? then Group(es, m) else Group(left, m) {
      assert Group(r, m) == if Find(es[1..], m).Some? then Group(es[1..], m) else Group(now, m);
      if m != es[0].name { assert Group(es[1..], m) == Group(es, m); }
    }
  }

  /** Putting a list of files into a cleared directory makes it list those files. */
  lemma {:induction false} PutCleared(es: seq<Entry>, left: seq<Entry>)
    requires Ordered(es) && Cleared(left)
    ensures Rooted(FilesList(es))
    ensures PutAll(left, FilesList(es)).Some? <==> Compatible(es, left)
    ensures PutAll(left, FilesList(es)).Some? ==>
      Ordered(PutAll(left, FilesList(es)).value) && FilesList(PutAll(left, FilesList(es)).value) == FilesList(es)
    decreases es, 2
  {
    PutEntries(es, left);
    if PutAll(left, FilesList(es)).Some? {
      var r := PutAll(left, FilesList(es)).value;
      forall m ensures Group(r, m) == Group(es, m) {
        assert Group(r, m) == if Find(es, m).Some? then Group(es, m) else Group(left, m);
      }
      GroupsMakeList(r, es);
    }
  }

  lemma {:induction false} ClearNames(es: seq<Entry>, name: string)
    requires forall i :: 0 <= i < |es| ==> Below(name, es[i].name)
    ensures forall i :: 0 <= i < |Clear(es)| ==> Below(name, Clear(es)[i].name)
    decreases |es|
  {
    if es != [] {
      assert Below(name, es[0].name);
      ClearNames(es[1..], name);
    }
  }

  /** Clearing leaves nothing that would be listed, and the order. */
  lemma {:induction false} ClearClears(es: seq<Entry>)
    requires Ordered(es)
    ensures Ordered(Clear(es)) && FilesList(Clear(es)) == []
    decreases es
  {
    if es != [] {
      var e, rest := es[0], es[1..];
      TailNames(es);
      ClearClears(rest);
      ClearNames(rest, e.name);
      if e.name != CVS && e.tree.Folder? { ClearClears(e.tree.entries); }
      var first := ClearEntry(e);
      assert OrderedTree(e.tree);
      if first != [] {
        assert Clear(es)[0] == first[0] && Clear(es)[1..] == Clear(rest);
        assert FilesOf(first[0]) == [];
      } else {
        assert Clear(es) == Clear(rest);
      }
    }
  }

  // ---- the archive ----------------------------------------------------------------------

  /** One <item> of an archive's header. */
  datatype Meta = Meta(path: seq<string>, size: nat, exe: bool)

  function Metas(items: seq<Item>): seq<Meta> {
    if items == [] then [] else [Meta(items[0].path, |items[0].bytes|, items[0].exe)] + Metas(items[1..])
  }

  function Data(items: seq<Item>): seq<Byte> {
    if items == [] then [] else items[0].bytes + Data(items[1..])
  }

  /** The size of the header in four digits, the header, and the files one after the other. */
  function Pack(header: seq<Byte>, items: seq<Item>): seq<Byte>
    requires |header| <= MAX_BLOCK
  {
    Header(|header|) + header + Data(items)
  }

  datatype Extracted = Extracted(entries: seq<Entry>, ok: bool)

  function First(n: nat, s: seq<Byte>): (k: nat)
    ensures k <= n && k <= |s| && (k == n || k == |s|)
  {
    if n <= |s| then n else |s|
  }

  /** Files are written as they are read; the first that cannot be, or is too short, ends it. */
  function Unpack(es: seq<Entry>, metas: seq<Meta>, data: seq<Byte>): Extracted
    decreases |metas|
  {
    if metas == [] then Extracted(es, true)
    else
      var m := metas[0];
      var n := First(m.size, data);
      if m.path == [] then Extracted(es, false)
      else
        match Put(es, Item(m.path, data[..n], m.exe))
        case None => Extracted(es, false)
        case Some(fs) => if n < m.size then Extracted(fs, false) else Unpack(fs, metas[1..], data[n..])
  }

  type HeaderPrinter = seq<Meta> -> seq<Byte>

  type HeaderParser = seq<Byte> -> Option<seq<Meta>>

  /** A header that is printed is not empty and is read back. */
  ghost predicate HeaderFaithful(printer: HeaderPrinter, parse: HeaderParser) {
    forall metas :: printer(metas) != [] && parse(printer(metas)) == Some(metas)
  }

  function Unarchive(parse: HeaderParser, es: seq<Entry>, archive: seq<Byte>): Extracted {
    if |archive| < 5 then Extracted(es, false)
    else
      var body := archive[4..];
      var n := First(ParseHex(archive[..4]), body);
      match parse(body[..n])
      case None => Extracted(es, false)
      case Some(metas) => Unpack(es, metas, body[n..])
  }

  lemma {:induction false} UnpackPuts(es: seq<Entry>, items: seq<Item>)
    requires Rooted(items)
    ensures Unpack(es, Metas(items), Data(items)).ok <==> PutAll(es, items).Some?
    ensures PutAll(es, items).Some? ==> Unpack(es, Metas(items), Data(items)).entries == PutAll(es, items).value
    decreases |items|
  {
    if items != [] {
      var i, data := items[0], Data(items);
      assert data[..|i.bytes|] == i.bytes && data[|i.bytes|..] == Data(items[1..]);
      assert Metas(items)[1..] == Metas(items[1..]);
      assert Item(i.path, i.bytes, i.exe) == i;
      match Put(es, i)
      case Some(fs) => UnpackPuts(fs, items[1..]);
      case None =>
    }
  }

  lemma UnarchivePacked(printer: HeaderPrinter, parse: HeaderParser, es: seq<Entry>, items: seq<Item>)
    requires HeaderFaithful(printer, parse) && |printer(Metas(items))| <= MAX_BLOCK
    ensures Unarchive(parse, es, Pack(printer(Metas(items)), items)) == Unpack(es, Metas(items), Data(items))
  {
    var header := printer(Metas(items));
    var archive := Pack(header, items);
    HeaderRoundTrip(|header|);
    assert header != [];
    assert archive[..4] == Header(|header|);
    assert archive[4..] == header + Data(items);
    assert archive[4..][..|header|] == header && archive[4..][|header|..] == Data(items);
  }

  /** The update of a module: packing a directory, clearing the client's copy and unpacking
      there succeeds exactly if no file is in the way of what clearing leaves; and then both
      directories list the same files with the same content, and have the same sum. */
  lemma UpdateConvergesIff(printer: HeaderPrinter, parse: HeaderParser, digest: seq<Byte> -> string,
                           src: seq<Entry>, copy: seq<Entry>)
    requires HeaderFaithful(printer, parse) && |printer(Metas(FilesList(src)))| <= MAX_BLOCK
    requires Ordered(src) && Ordered(copy)
    ensures var x := Unarchive(parse, Clear(copy), Pack(printer(Metas(FilesList(src))), FilesList(src)));
            && (x.ok <==> Compatible(src, Clear(copy)))
            && (x.ok ==> FilesList(x.entries) == FilesList(src) && DirMD5(digest, x.entries) == DirMD5(digest, src))
  {
    var left := Clear(copy);
    ClearClears(copy);
    NoGroups(left);
    PutCleared(src, left);
    UnarchivePacked(printer, parse, left, FilesList(src));
    UnpackPuts(left, FilesList(src));
  }

  /** A copy without CVS directories always converges. */
  lemma UpdateOfPlainCopy(src: seq<Entry>, copy: seq<Entry>)
    requires Clear(copy) == []
    ensures Compatible(src, Clear(copy))
  {
    CompatibleWithNothing(src);
  }

  /** A file in the place of a directory that holds a CVS directory does not. */
  lemma CvsInTheWay(parse: HeaderParser, printer: HeaderPrinter, name: string, bytes: seq<Byte>, exe: bool)
    requires name != CVS && HeaderFaithful(printer, parse)
    requires |printer(Metas(FilesList([Entry(name, Leaf(bytes, exe))])))| <= MAX_BLOCK
    ensures var src := [Entry(name, Leaf(bytes, exe))];
            var copy := [Entry(name, Folder([Entry(CVS, Folder([]))]))];
            !Unarchive(parse, Clear(copy), Pack(printer(Metas(FilesList(src))), FilesList(src))).ok
  {
    var src := [Entry(name, Leaf(bytes, exe))];
    var inner := [Entry(CVS, Folder([]))];
    var copy := [Entry(name, Folder(inner))];
    assert inner[1..] == [] && Clear(inner) == ClearEntry(inner[0]) + Clear([]) == inner;
    assert copy[1..] == [] && Clear(copy) == ClearEntry(copy[0]) + Clear([]) == copy;
    assert src[1..] == [] && !CompatibleEntry(src[0], copy);
    assert OrderedTree(Folder([])) && Ordered(inner) && OrderedTree(Folder(inner));
    UpdateConvergesIff(printer, parse, _ => "", src, copy);
  }

  // ---- the program ----------------------------------------------------------------------

  const COPY_BLOCK: nat := 16384

  /** The inner loop of getFilesList. */
  method AppendUnder(items: seq<Item>, name: string, sub: seq<Item>) returns (longer: seq<Item>)
    ensures longer == items + Under(name, sub)
  {
    longer := items;
    for j := 0 to |sub|
      invariant longer == items + Under(name, sub)[..j]
    {
      longer := longer + [sub[j].(path := [name] + sub[j].path)];
    }
    assert Under(name, sub)[..|sub|] == Under(name, sub);
  }

  lemma ListStep(es: seq<Entry>, i: nat)
    requires i <= |es|
    ensures i == |es| ==> FilesList(es[i..]) == []
    ensures i < |es| ==> FilesList(es[i..]) == FilesOf(es[i]) + FilesList(es[i + 1..])
  {
    if i < |es| { assert es[i..][0] == es[i] && es[i..][1..] == es[i + 1..]; }
  }

  lemma Associated<T>(a: seq<T>, b: seq<T>, c: seq<T>)
    ensures (a + b) + c == a + (b + c)
  {
  }

  method GetFilesList(es: seq<Entry>) returns (items: seq<Item>)
    ensures items == FilesList(es)
    decreases es
  {
    hide FilesList;
    items := [];
    var i := 0;
    assert es[0..] == es;
    while i < |es|
      invariant i <= |es| && items + FilesList(es[i..]) == FilesList(es)
    {
      ListStep(es, i);
      ghost var before, rest := items, FilesList(es[i + 1..]);
      if es[i].name != CVS {
        match es[i].tree
        case Folder(below) =>
          var sub := GetFilesList(below);
          items := AppendUnder(items, es[i].name, sub);
        case Leaf(bytes, exe) =>
          items := items + [Item([es[i].name], bytes, exe)];
      }
      assert items == before + FilesOf(es[i]);
      Associated(before, FilesOf(es[i]), rest);
      i := i + 1;
    }
    ListStep(es, i);
  }

  method RecursiveRemoveDirectoryContent(es: seq<Entry>) returns (left: seq<Entry>)
    ensures left == Clear(es)
    decreases es
  {
    left := [];
    var i := 0;
    while i < |es|
      invariant i <= |es| && left + Clear(es[i..]) == Clear(es)
    {
      assert es[i..][0] == es[i] && es[i..][1..] == es[i + 1..];
      ghost var before, rest := left, Clear(es[i + 1..]);
      if es[i].name == CVS {
        left := left + [es[i]];
      } else {
        match es[i].tree
        case Folder(below) =>
          var sub := RecursiveRemoveDirectoryContent(below);
          if sub != [] {
            left := left + [Entry(es[i].name, Folder(sub))];
          }
        case Leaf(_, _) =>
      }
      assert left == before + ClearEntry(es[i]);
      assert before + (ClearEntry(es[i]) + rest) == left + rest;
      i := i + 1;
    }
  }

  method GetDirMD5(digest: seq<Byte> -> string, es: seq<Entry>) returns (sum: string)
    ensures sum == DirMD5(digest, es)
  {
    var items := GetFilesList(es);
    sum := "";
    for i := 0 to |items|
      invariant sum == SumOf(digest, items[..i])
    {
      assert items[..i + 1][..i] == items[..i];
      sum := sum + Joined(items[i].path) + ":" + digest(items[i].bytes) + ";";
    }
    assert items[..|items|] == items;
  }

  /** Copies `size` bytes from `from` on in blocks, as far as there are any. */
  method CopyBlocks(source: seq<Byte>, from: nat, size: nat) returns (copy: seq<Byte>)
    requires from <= |source|
    ensures copy == source[from..][..First(size, source[from..])]
  {
    copy := [];
    var processed, block := 0, COPY_BLOCK;
    while processed < size
      invariant processed <= size && block > 0
      invariant copy == source[from..][..First(processed, source[from..])]
      decreases size - processed
    {
      if size - processed < block {
        block := size - processed;
      }
      var position := from + |copy|;
      var count := if position + block <= |source| then block else |source| - position;
      copy := copy + source[position..position + count];
      processed := processed + block;
    }
  }

  lemma PackStep(items: seq<Item>, i: nat)
    requires i <= |items|
    ensures i == |items| ==> Data(items[i..]) == [] && Metas(items[i..]) == []
    ensures i < |items| ==>
              && Data(items[i..]) == items[i].bytes + Data(items[i + 1..])
              && Metas(items[i..]) ==
                 [Meta(items[i].path, |items[i].bytes|, items[i].exe)] + Metas(items[i + 1..])
  {
    if i < |items| { assert items[i..][0] == items[i] && items[i..][1..] == items[i + 1..]; }
  }

  /** None if there is no file to pack. */
  method CreateArchive(printer: HeaderPrinter, es: seq<Entry>) returns (archive: Option<seq<Byte>>)
    requires |printer(Metas(FilesList(es)))| <= MAX_BLOCK
    ensures archive == if FilesList(es) == [] then None else Some(Pack(printer(Metas(FilesList(es))), FilesList(es)))
  {
    var items := GetFilesList(es);
    if |items| == 0 {
      return None;
    }
    hide Data, Metas, FilesList, Header;
    assert items[0..] == items;
    var metas: seq<Meta> := [];
    var i := 0;
    while i < |items|
      invariant i <= |items| && metas + Metas(items[i..]) == Metas(items)
    {
      PackStep(items, i);
      var meta := Meta(items[i].path, |items[i].bytes|, items[i].exe);
      Associated(metas, [meta], Metas(items[i + 1..]));
      metas := metas + [meta];
      i := i + 1;
    }
    PackStep(items, i);
    assert metas == Metas(items);
    var header := printer(metas);
    var file := Header(|header|) + header;
    ghost var start := file;
    i := 0;
    while i < |items|
      invariant i <= |items| && file + Data(items[i..]) == start + Data(items)
    {
      PackStep(items, i);
      var bytes := CopyBlocks(items[i].bytes, 0, |items[i].bytes|);
      assert bytes == items[i].bytes;
      Associated(file, bytes, Data(items[i + 1..]));
      file := file + bytes;
      i := i + 1;
    }
    PackStep(items, i);
    assert file + [] == file;
    return Some(file);
  }

  /** The directory an archive is unpacked to. */
  class ModuleDirectory {
    var entries: seq<Entry>

    constructor (entries: seq<Entry>)
      ensures this.entries == entries
    {
      this.entries := entries;
    }

    method RemoveContent()
      modifies this
      ensures entries == Clear(old(entries))
    {
      entries := RecursiveRemoveDirectoryContent(entries);
    }

    method ExtractArchive(parse: HeaderParser, archive: seq<Byte>) returns (ok: bool)
      modifies this
      ensures Extracted(entries, ok) == Unarchive(parse, old(entries), archive)
    {
      if |archive| < 5 {
        return false;
      }
      var position: nat := 4 + First(ParseHex(archive[..4]), archive[4..]);
      assert archive[4..position] == archive[4..][..position - 4];
      var header := parse(archive[4..position]);
      if header.None? {
        return false;
      }
      var metas := header.value;
      assert archive[position..] == archive[4..][position - 4..];
      var i := 0;
      while i < |metas|
        invariant i <= |metas| && position <= |archive|
        invariant Unpack(entries, metas[i..], archive[position..]) == Unarchive(parse, old(entries), archive)
      {
        assert metas[i..][0] == metas[i] && metas[i..][1..] == metas[i + 1..];
        var bytes := CopyBlocks(archive, position, metas[i].size);
        if metas[i].path == [] {
          return false;
        }
        var written := Put(entries, Item(metas[i].path, bytes, metas[i].exe));
        if written.None? {
          return false;
        }
        entries := written.value;
        if |bytes| != metas[i].size {
          return false;
        }
        assert archive[position..][|bytes|..] == archive[position + |bytes|..];
        position := position + |bytes|;
        i := i + 1;
      }
      return true;
    }
  }
}
