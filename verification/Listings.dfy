/** What listing, clearing and writing do to a directory, said of what is found at each path. */
module Listings {
  import opened Wrappers
  import opened Messages
  import opened Framing
  import opened Archives

  /** What is at a path from a directory. */
  function At(t: Tree, path: seq<string>): Option<Tree>
    decreases |path|
  {
    if path == [] then Some(t)
    else if t.Leaf? then None
    else
      match Find(t.entries, path[0])
      case None => None
      case Some(u) => At(u, path[1..])
  }

  // ---- listing --------------------------------------------------------------------------

  lemma UnderHas(name: string, items: seq<Item>, x: Item)
    ensures x in Under(name, items) <==>
            x.path != [] && x.path[0] == name && x.(path := x.path[1..]) in items
  {
    var r := Under(name, items);
    if x in r {
      var i :| 0 <= i < |r| && r[i] == x;
      assert x.path[1..] == items[i].path && x.(path := x.path[1..]) == items[i];
    }
    if x.path != [] && x.path[0] == name && x.(path := x.path[1..]) in items {
      var i :| 0 <= i < |items| && items[i] == x.(path := x.path[1..]);
      assert [name] + items[i].path == x.path && r[i] == x;
    }
  }

  lemma {:induction false} EntryLists(e: Entry, x: Item)
    requires OrderedTree(e.tree)
    ensures x in FilesOf(e) <==> && x.path != [] && x.path[0] == e.name && "CVS" !in x.path
                                 && At(e.tree, x.path[1..]) == Some(Leaf(x.bytes, x.exe))
    decreases e, 1
  {
    if x.path != [] { assert x.path == [x.path[0]] + x.path[1..]; }
    if e.name != CVS {
      match e.tree
      case Leaf(bytes, exe) =>
        if x.path != [] && x.path[1..] == [] { assert x.path == [x.path[0]]; }
      case Folder(es) =>
        UnderHas(e.name, FilesList(es), x);
        if x.path != [] { ListedIff(es, x.(path := x.path[1..])); }
    }
  }

  /** Listed is exactly what is a file and has no CVS on its path, with its content and
      permission. */
  lemma {:induction false} ListedIff(es: seq<Entry>, x: Item)
    requires Ordered(es)
    ensures x in FilesList(es) <==> At(Folder(es), x.path) == Some(Leaf(x.bytes, x.exe)) && "CVS" !in x.path
    decreases es, 0
  {
    if es != [] {
      TailNames(es);
      EntryLists(es[0], x);
      ListedIff(es[1..], x);
      assert FilesList(es) == FilesOf(es[0]) + FilesList(es[1..]);
    }
  }

  /** The order of paths: by the first name in which they differ. */
  predicate PathBelow(a: seq<string>, b: seq<string>) {
    a != [] && b != [] && (Below(a[0], b[0]) || (a[0] == b[0] && PathBelow(a[1..], b[1..])))
  }

  predicate PathsAscend(items: seq<Item>) {
    forall i, j :: 0 <= i < j < |items| ==> PathBelow(items[i].path, items[j].path)
  }

  lemma {:induction false} EntryAscends(e: Entry)
    requires OrderedTree(e.tree)
    ensures PathsAscend(FilesOf(e)) && forall i :: 0 <= i < |FilesOf(e)| ==>
              FilesOf(e)[i].path != [] && FilesOf(e)[i].path[0] == e.name
    decreases e, 1
  {
    if e.name != CVS && e.tree.Folder? {
      var items, r := FilesList(e.tree.entries), FilesOf(e);
      ListAscends(e.tree.entries);
      forall i, j | 0 <= i < j < |r| ensures PathBelow(r[i].path, r[j].path) {
        assert r[i].path[1..] == items[i].path && r[j].path[1..] == items[j].path;
      }
    }
  }

  /** Paths are listed in order, and so each only once. */
  lemma {:induction false} ListAscends(es: seq<Entry>)
    requires Ordered(es)
    ensures PathsAscend(FilesList(es))
    ensures forall i :: 0 <= i < |FilesList(es)| ==>
              FilesList(es)[i].path != [] && exists k :: 0 <= k < |es| && es[k].name == FilesList(es)[i].path[0]
    decreases es, 0
  {
    if es != [] {
      var a, b := FilesOf(es[0]), FilesList(es[1..]);
      TailNames(es);
      EntryAscends(es[0]);
      ListAscends(es[1..]);
      forall j | 0 <= j < |b|
        ensures Below(es[0].name, b[j].path[0]) && exists k :: 0 <= k < |es| && es[k].name == b[j].path[0]
      {
        var k :| 0 <= k < |es[1..]| && es[1..][k].name == b[j].path[0];
        assert es[k + 1].name == b[j].path[0];
      }
      assert FilesList(es) == a + b;
    }
  }

  // ---- clearing -------------------------------------------------------------------------

  lemma {:induction false} FindClear(es: seq<Entry>, name: string)
    requires Ordered(es)
    ensures Find(Clear(es), name) ==
            match Find(es, name)
            case None => None
            case Some(t) =>
              if name == "CVS" then Some(t)
              else if t.Leaf? || Clear(t.entries) == [] then None
              else Some(Folder(Clear(t.entries)))
    decreases |es|
  {
    if es != [] {
      TailNames(es);
      FindClear(es[1..], name);
      var e := es[0];
      if ClearEntry(e) == [] {
        assert Clear(es) == Clear(es[1..]);
      } else {
        assert |ClearEntry(e)| == 1 && Clear(es)[0] == ClearEntry(e)[0] && Clear(es)[1..] == Clear(es[1..]);
      }
    }
  }

  lemma {:induction false} FoundIsOrdered(es: seq<Entry>, name: string)
    requires Ordered(es)
    ensures match Find(es, name) case Some(t) => OrderedTree(t) && Entry(name, t) in es case None => true
    decreases |es|
  {
    if es != [] && es[0].name != name {
      assert forall i :: 0 <= i < |es[1..]| ==> es[1..][i] == es[i + 1];
      FoundIsOrdered(es[1..], name);
    } else if es != [] {
      assert Entry(name, es[0].tree) == es[0];
    }
  }

  /** A file is left by clearing exactly if something on its path is called CVS, and then it is
      as it was. */
  lemma {:induction false} ClearedFileIff(es: seq<Entry>, path: seq<string>, bytes: seq<Byte>, exe: bool)
    requires Ordered(es)
    ensures At(Folder(Clear(es)), path) == Some(Leaf(bytes, exe)) <==>
            At(Folder(es), path) == Some(Leaf(bytes, exe)) && "CVS" in path
    decreases |path|
  {
    if path != [] {
      var name := path[0];
      assert path == [name] + path[1..];
      FindClear(es, name);
      FoundIsOrdered(es, name);
      match Find(es, name)
      case Some(Folder(sub)) =>
        ClearedFileIff(sub, path[1..], bytes, exe);
        if Clear(sub) == [] && path[1..] != [] { assert At(Folder([]), path[1..]) == None; }
      case _ =>
    }
  }

  /** Something is there whose path goes on from this one to something called CVS, or has
      passed it. */
  ghost predicate LeadsToCvs(t: Tree, path: seq<string>) {
    exists more :: At(t, path + more).Some? && "CVS" in path + more
  }

  predicate Stays(e: Entry) {
    e.name == CVS || (e.tree.Folder? && Clear(e.tree.entries) != [])
  }

  lemma {:induction false} ClearLeaves(es: seq<Entry>)
    requires Ordered(es)
    ensures Clear(es) != [] <==> LeadsToCvs(Folder(es), [])
    decreases es
  {
    if Clear(es) != [] {
      ClearFinds(es);
      var e :| e in es && Stays(e);
      FindEntry(es, e);
      if e.name == CVS {
        assert At(Folder(es), [] + ["CVS"]).Some?;
      } else {
        ClearLeaves(e.tree.entries);
        var more :| At(e.tree, [] + more).Some? && "CVS" in [] + more;
        assert [] + more == more;
        var path := [e.name] + more;
        assert path[1..] == more && At(Folder(es), path).Some? && [] + path == path;
        assert "CVS" in path;
      }
    }
    if LeadsToCvs(Folder(es), []) {
      var path :| At(Folder(es), [] + path).Some? && "CVS" in [] + path;
      assert [] + path == path && path == [path[0]] + path[1..];
      FindClear(es, path[0]);
      FoundIsOrdered(es, path[0]);
      var t := Find(es, path[0]).value;
      if path[0] != "CVS" {
        assert [] + path[1..] == path[1..] && At(t, [] + path[1..]).Some?;
        assert "CVS" in path[1..] && LeadsToCvs(t, []);
        ClearLeaves(t.entries);
      }
    }
  }

  lemma {:induction false} ClearFinds(es: seq<Entry>)
    requires Clear(es) != []
    ensures exists e :: e in es && Stays(e)
    decreases |es|
  {
    if ClearEntry(es[0]) == [] {
      assert Clear(es) == Clear(es[1..]);
      ClearFinds(es[1..]);
      var e :| e in es[1..] && Stays(e);
      assert e in es;
    } else {
      assert es[0] in es && Stays(es[0]);
    }
  }

  lemma {:induction false} FindEntry(es: seq<Entry>, e: Entry)
    requires Ordered(es) && e in es
    ensures Find(es, e.name) == Some(e.tree) && OrderedTree(e.tree)
    decreases |es|
  {
    if es[0] != e {
      TailNames(es);
      FindEntry(es[1..], e);
    }
  }

  /** Anything, directory or file, is left by clearing exactly if something on its path is
      called CVS, or something below it. */
  lemma {:induction false} ClearedIff(es: seq<Entry>, path: seq<string>)
    requires Ordered(es) && path != []
    ensures At(Folder(Clear(es)), path).Some? <==> LeadsToCvs(Folder(es), path)
    decreases |path|
  {
    var name, rest := path[0], path[1..];
    FindClear(es, name);
    FoundIsOrdered(es, name);
    assert forall more :: (path + more)[0] == name && (path + more)[1..] == rest + more;
    match Find(es, name)
    case None =>
    case Some(t) =>
      if name == "CVS" {
        CvsLeads(es, t, path);
      } else {
        OtherLeads(es, t, path);
        if rest == [] {
          if t.Folder? { ClearLeaves(t.entries); } else { LeafLeadsNowhere(t); }
        } else if t.Folder? {
          ClearedIff(t.entries, rest);
        }
      }
  }

  lemma LeafLeadsNowhere(t: Tree)
    requires t.Leaf?
    ensures !LeadsToCvs(t, [])
  {
    forall more ensures !(At(t, [] + more).Some? && "CVS" in [] + more) {
      assert [] + more == more;
    }
  }

  lemma CvsLeads(es: seq<Entry>, t: Tree, path: seq<string>)
    requires path != [] && path[0] == "CVS" && Find(es, "CVS") == Some(t)
    ensures LeadsToCvs(Folder(es), path) <==> At(t, path[1..]).Some?
  {
    if At(t, path[1..]).Some? {
      assert path + [] == path && At(Folder(es), path + []).Some?;
    }
    if LeadsToCvs(Folder(es), path) {
      var more :| At(Folder(es), path + more).Some? && "CVS" in path + more;
      assert (path + more)[1..] == path[1..] + more;
      AtPrefix(t, path[1..], more);
    }
  }

  lemma OtherLeads(es: seq<Entry>, t: Tree, path: seq<string>)
    requires path != [] && path[0] != "CVS" && Find(es, path[0]) == Some(t)
    ensures LeadsToCvs(Folder(es), path) <==> LeadsToCvs(t, path[1..])
  {
    forall more
      ensures At(Folder(es), path + more) == At(t, path[1..] + more)
      ensures "CVS" in path + more <==> "CVS" in path[1..] + more
    {
      assert (path + more)[1..] == path[1..] + more && path + more == [path[0]] + (path[1..] + more);
    }
    if LeadsToCvs(t, path[1..]) {
      var more :| At(t, path[1..] + more).Some? && "CVS" in path[1..] + more;
      assert At(Folder(es), path + more).Some? && "CVS" in path + more;
    }
  }

  lemma {:induction false} AtPrefix(t: Tree, path: seq<string>, more: seq<string>)
    requires At(t, path + more).Some?
    ensures At(t, path).Some?
    decreases |path|
  {
    if path != [] {
      assert (path + more)[1..] == path[1..] + more;
      AtPrefix(Find(t.entries, path[0]).value, path[1..], more);
    }
  }

  // ---- writing --------------------------------------------------------------------------

  /** A file is on the way to the path, or a directory at it. */
  predicate InTheWay(t: Tree, path: seq<string>) {
    || (exists k :: 0 < k < |path| && At(t, path[..k]).Some? && At(t, path[..k]).value.Leaf?)
    || (At(t, path).Some? && At(t, path).value.Folder?)
  }

  /** At the path is the file with its content, executable if it is to be or was; whatever is
      not on the way to it is as it was. */
  ghost predicate Written(t: Tree, u: Tree, x: Item) {
    && At(u, x.path) == Some(Leaf(x.bytes, x.exe || exists b :: At(t, x.path) == Some(Leaf(b, true))))
    && forall q :: !(q <= x.path) ==> At(u, q) == At(t, q)
  }

  lemma WayDown(t: Tree, below: Tree, path: seq<string>)
    requires |path| > 1 && t.Folder?
    requires below == match Find(t.entries, path[0]) case Some(u) => u case None => Folder([])
    ensures InTheWay(t, path) <==> below.Leaf? || InTheWay(below, path[1..])
    ensures forall q :: q != [] && q[0] == path[0] && q != [path[0]] ==> At(t, q) == At(below, q[1..])
  {
    var rest := path[1..];
    forall q | q != [] && q[0] == path[0] && q != [path[0]] ensures At(t, q) == At(below, q[1..]) {
      assert q == [q[0]] + q[1..];
      assert At(Folder([]), q[1..]) == None;
    }
    forall k | 1 < k < |path| ensures At(t, path[..k]) == At(below, rest[..k - 1]) {
      assert path[..k][1..] == rest[..k - 1];
    }
    assert path[..1] == [path[0]] && path[..1][1..] == [];
    assert At(t, path[..1]) == Find(t.entries, path[0]);
    if below.Leaf? {
      assert At(t, path[..1]) == Some(below);
    } else {
      if k :| 0 < k < |path| && At(t, path[..k]).Some? && At(t, path[..k]).value.Leaf? {
        assert k > 1 && At(below, rest[..k - 1]).Some? && At(below, rest[..k - 1]).value.Leaf?;
      }
      if k :| 0 < k < |rest| && At(below, rest[..k]).Some? && At(below, rest[..k]).value.Leaf? {
        assert At(t, path[..k + 1]) == At(below, rest[..k]);
      }
    }
  }

  /** A file is written unless something is in the way. */
  lemma {:induction false} PutWrites(es: seq<Entry>, x: Item)
    requires x.path != []
    ensures Put(es, x) == None <==> InTheWay(Folder(es), x.path)
    ensures Put(es, x).Some? ==> Written(Folder(es), Folder(Put(es, x).value), x)
    decreases |x.path|
  {
    var t, name, rest := Folder(es), x.path[0], x.path[1..];
    if |x.path| == 1 {
      PutOne(es, x);
    } else {
      var below := match Find(es, name) case Some(u) => u case None => Folder([]);
      WayDown(t, below, x.path);
      if below.Folder? {
        PutWrites(below.entries, x.(path := rest));
        match Put(below.entries, x.(path := rest))
        case None =>
        case Some(sub) => PutBelow(es, below, sub, x);
      }
    }
  }

  lemma PutOne(es: seq<Entry>, x: Item)
    requires |x.path| == 1
    ensures Put(es, x) == None <==> InTheWay(Folder(es), x.path)
    ensures Put(es, x).Some? ==> Written(Folder(es), Folder(Put(es, x).value), x)
  {
    var t, name := Folder(es), x.path[0];
    assert x.path == [name] && x.path[1..] == [];
    assert At(t, x.path) == Find(es, name);
    match Put(es, x)
    case None =>
    case Some(r) =>
      var leaf := Leaf(x.bytes, x.exe || exists b :: At(t, x.path) == Some(Leaf(b, true)));
      assert r == Set(es, name, leaf);
      forall q | !(q <= x.path) ensures At(Folder(r), q) == At(t, q) {
        FindSet(es, name, leaf, q[0]);
        if q[0] == name { assert q == [name] + q[1..]; }
      }
      FindSet(es, name, leaf, name);
  }

  lemma PutBelow(es: seq<Entry>, below: Tree, sub: seq<Entry>, x: Item)
    requires |x.path| > 1 && below == (match Find(es, x.path[0]) case Some(u) => u case None => Folder([]))
    requires Written(below, Folder(sub), x.(path := x.path[1..]))
    ensures Written(Folder(es), Folder(Set(es, x.path[0], Folder(sub))), x)
  {
    var t, name, rest := Folder(es), x.path[0], x.path[1..];
    var u := Folder(Set(es, name, Folder(sub)));
    assert x.path == [name] + rest;
    WayDown(t, below, x.path);
    FindSet(es, name, Folder(sub), name);
    assert At(t, x.path) == At(below, rest) && At(u, x.path) == At(Folder(sub), rest);
    forall q | !(q <= x.path) ensures At(u, q) == At(t, q) {
      FindSet(es, name, Folder(sub), q[0]);
      if q[0] == name {
        assert q == [name] + q[1..];
        assert !(q[1..] <= rest);
      }
    }
  }

  // ---- archives -------------------------------------------------------------------------

  function Contents(items: seq<Item>): seq<seq<Byte>> {
    seq(|items|, i requires 0 <= i < |items| => items[i].bytes)
  }

  lemma {:induction false} DataIsContents(items: seq<Item>)
    ensures Data(items) == Flat(Contents(items))
    decreases |items|
  {
    if items != [] {
      DataIsContents(items[1..]);
      assert Contents(items)[1..] == Contents(items[1..]);
    }
  }

  lemma {:induction false} MetasAt(items: seq<Item>, k: nat)
    requires k < |items|
    ensures |Metas(items)| == |items| && Metas(items)[k] == Meta(items[k].path, |items[k].bytes|, items[k].exe)
    decreases |items|
  {
    if k > 0 {
      MetasAt(items[1..], k - 1);
    } else if |items| > 1 {
      MetasAt(items[1..], 0);
    }
  }

  /** An archive: the size of the header in four digits, the header, and the contents of the
      files in the order of the list. */
  lemma PackMeans(header: seq<Byte>, items: seq<Item>)
    requires |header| <= MAX_BLOCK
    ensures var a := Pack(header, items);
            && a == a[..4] + header + Flat(Contents(items))
            && AreDigits(a[..4]) && Spelled(a[..4]) == |header|
  {
    hide Spelled, AreDigits;
    DataIsContents(items);
    HeaderSpells(|header|);
    assert Pack(header, items)[..4] == Header(|header|);
  }

  function Size(metas: seq<Meta>): nat {
    if metas == [] then 0 else metas[0].size + Size(metas[1..])
  }

  /** An archive that is too short for the sizes in its header is never unpacked to the end. */
  lemma {:induction false} ShortFails(es: seq<Entry>, metas: seq<Meta>, data: seq<Byte>)
    requires |data| < Size(metas)
    ensures !Unpack(es, metas, data).ok
    decreases |metas|
  {
    var m := metas[0];
    var n := First(m.size, data);
    if m.path != [] && n == m.size {
      match Put(es, Item(m.path, data[..n], m.exe))
      case Some(fs) => ShortFails(fs, metas[1..], data[n..]);
      case None =>
    }
  }

  /** Nothing is unpacked of an archive of less than five bytes, or whose header cannot be read. */
  lemma BadHeaderFails(parse: HeaderParser, es: seq<Entry>, archive: seq<Byte>, end: nat)
    requires |archive| >= 5 ==>
      end == if 4 + ParseHex(archive[..4]) <= |archive| then 4 + ParseHex(archive[..4]) else |archive|
    requires |archive| < 5 || parse(archive[4..end]) == None
    ensures Unarchive(parse, es, archive) == Extracted(es, false)
  {
    if |archive| >= 5 { assert archive[4..][..end - 4] == archive[4..end]; }
  }
}
