/** The dependency fingerprint tells trees apart: every name in a directory's
    stream ends at its NUL byte and the listing is headed by its entry count,
    so the bytes of a tree, followed by anything, can be read back in only
    one way. */
module HashStreamInjective {
  import opened Results
  import opened ByteEncoding
  import opened FileTree
  import opened HashFiles
  import opened HashFilesProperties

  /** A name with no 0 byte in it, which its NUL terminator delimits. */
  predicate NulFree(name: Name)
  {
    forall i :: 0 <= i < |name| ==> name[i] != 0
  }

  /** Every name strictly after the one before it. */
  ghost predicate StrictlyAscending(s: seq<Name>)
  {
    forall i, j :: 0 <= i < j < |s| ==> NameLe(s[i], s[j]) && s[i] != s[j]
  }

  /** A tree in the one shape per stream: each file's mode, mtime and size
      within the widths they are written in, and each directory holding
      fewer than 2^53 entries, listed in ascending order of their NUL-free
      names. A tree whose fields fit their widths and whose names are
      NUL-free and distinct hashes like its canonical form
      (HashCanonicalForm.CanonStream). */
  ghost predicate Canonical(n: Node)
    decreases n
  {
    match n
    case File(mode, mtime, size) =>
      mode < 0x1_0000 && mtime < 0x1_0000_0000_0000 && size < 0x20_0000_0000_0000
    case Dir(entries) =>
      && |entries| < 0x20_0000_0000_0000
      && StrictlyAscending(Names(entries))
      && forall i :: 0 <= i < |entries| ==> NulFree(entries[i].name) && Canonical(entries[i].node)
    case Special => true
  }

  /** Equal concatenations whose first parts have equal lengths have equal
      parts. */
  lemma SplitAt(a: seq<byte>, x: seq<byte>, b: seq<byte>, y: seq<byte>)
    requires |a| == |b| && a + x == b + y
    ensures a == b && x == y
  {
    assert a == (a + x)[..|a|] && b == (b + y)[..|b|];
    assert x == (a + x)[|a|..] && y == (b + y)[|b|..];
  }

  /** A NUL-terminated name is read back up to its terminator. */
  lemma NulDelimited(a: Name, b: Name, x: seq<byte>, y: seq<byte>)
    requires NulFree(a) && NulFree(b)
    requires a + [0] + x == b + [0] + y
    ensures a == b && x == y
  {
    if |a| < |b| {
      NulEndsShorter(a, b, x, y);
      assert false;
    } else if |b| < |a| {
      NulEndsShorter(b, a, y, x);
      assert false;
    }
    SplitAt(a + [0], x, b + [0], y);
    SplitAt(a, [0], b, [0]);
  }

  /** The terminator of a shorter name meets a byte of the longer one. */
  lemma NulEndsShorter(a: Name, b: Name, x: seq<byte>, y: seq<byte>)
    requires NulFree(b) && |a| < |b|
    ensures a + [0] + x != b + [0] + y
  {
    assert (a + [0] + x)[|a|] == 0;
    assert (b + [0] + y)[|a|] == b[|a|];
  }

  lemma TagBytes()
    ensures UInt8(FILE_TAG) == [0] && UInt8(DIR_TAG) == [1] && UInt8(0) == [0]
  {
  }

  /** The bytes one listed name contributes: the name, NUL, then its entry. */
  function EntryBytes(name: Name, child: seq<byte>): seq<byte>
  {
    name + [0] + child
  }

  /** The entry a directory holds under a name, if any. */
  function Lookup(dir: Node, name: Name): Option<Node>
    requires dir.Dir?
  {
    var i := FindEntry(dir.entries, name);
    if i < 0 then None else Some(dir.entries[i].node)
  }

  /** A listing read from the back: the listing without its last name,
      then that name's entry. */
  lemma EntriesStreamLast(dir: Node, names: seq<Name>, p: Path)
    requires dir.Dir? && names != []
    ensures var last := names[|names| - 1];
      EntriesStream(dir, names, p).Ok? <==>
        && EntriesStream(dir, names[..|names| - 1], p).Ok?
        && Lookup(dir, last).Some?
        && NodeStream(Lookup(dir, last).value, p + [last]).Ok?
    ensures var last := names[|names| - 1];
      EntriesStream(dir, names, p).Ok? ==>
        EntriesStream(dir, names, p).value ==
          EntriesStream(dir, names[..|names| - 1], p).value + EntryBytes(last, NodeStream(Lookup(dir, last).value, p + [last]).value)
  {
    hide NodeStream;
    TagBytes();
  }

  lemma EntriesStreamEmpty(dir: Node, p: Path)
    requires dir.Dir?
    ensures EntriesStream(dir, [], p) == Ok([])
  {
  }

  /** A listing read from the front: its first entry, then the rest. */
  lemma {:induction false} EntriesStreamCons(dir: Node, names: seq<Name>, p: Path)
    requires dir.Dir? && names != [] && EntriesStream(dir, names, p).Ok?
    ensures Lookup(dir, names[0]).Some?
    ensures NodeStream(Lookup(dir, names[0]).value, p + [names[0]]).Ok?
    ensures EntriesStream(dir, names[1..], p).Ok?
    ensures EntriesStream(dir, names, p).value ==
      EntryBytes(names[0], NodeStream(Lookup(dir, names[0]).value, p + [names[0]]).value) + EntriesStream(dir, names[1..], p).value
    decreases |names|
  {
    hide NodeStream, EntriesStream, EntryBytes, Lookup;
    var last := |names| - 1;
    EntriesStreamLast(dir, names, p);
    if last == 0 {
      EntriesStreamEmpty(dir, p);
      assert names[..last] == [] && names[1..] == [];
      var x0 := EntryBytes(names[0], NodeStream(Lookup(dir, names[0]).value, p + [names[0]]).value);
      assert [] + x0 == x0 + [];
    } else {
      var init, rest := names[..last], names[1..];
      assert init[0] == names[0];
      EntriesStreamCons(dir, init, p);
      assert init[1..] == rest[..|rest| - 1];
      assert rest[|rest| - 1] == names[last];
      EntriesStreamLast(dir, rest, p);
      var x0 := EntryBytes(names[0], NodeStream(Lookup(dir, names[0]).value, p + [names[0]]).value);
      var xl := EntryBytes(names[last], NodeStream(Lookup(dir, names[last]).value, p + [names[last]]).value);
      Combine(EntriesStream(dir, names, p).value, EntriesStream(dir, init, p).value,
              EntriesStream(dir, rest, p).value, EntriesStream(dir, init[1..], p).value, x0, xl);
    }
  }

  lemma Combine(whole: seq<byte>, init: seq<byte>, tail: seq<byte>, middle: seq<byte>, first: seq<byte>, last: seq<byte>)
    requires whole == init + last && init == first + middle && tail == middle + last
    ensures whole == first + tail
  {
  }

  /** The stream of a canonical tree, followed by anything, determines the
      tree and what follows it. */
  lemma {:induction false} NodeStreamPrefixInjective(n1: Node, p1: Path, r1: seq<byte>, n2: Node, p2: Path, r2: seq<byte>)
    requires Canonical(n1) && Canonical(n2)
    requires NodeStream(n1, p1).Ok? && NodeStream(n2, p2).Ok?
    requires NodeStream(n1, p1).value + r1 == NodeStream(n2, p2).value + r2
    ensures n1 == n2 && r1 == r2
    decreases n1, 1
  {
    TagBytes();
    var s1 := NodeStream(n1, p1).value;
    var s2 := NodeStream(n2, p2).value;
    if n1.File? {
      FileRecordLayout(n1.mode, n1.mtime, n1.size);
    }
    if n2.File? {
      FileRecordLayout(n2.mode, n2.mtime, n2.size);
    }
    assert s1[0] == (s1 + r1)[0] == (s2 + r2)[0] == s2[0];
    if n1.File? {
      SplitAt(s1, r1, s2, r2);
      FileRecordInjective(n1.mode, n1.mtime, n1.size, n2.mode, n2.mtime, n2.size);
    } else {
      DirectoryPrefixInjective(n1, p1, r1, n2, p2, r2);
    }
  }

  /** The header of a directory's stream: its tag and entry count. */
  function Header(count: nat): (r: seq<byte>)
    ensures |r| == 9
  {
    UInt8(DIR_TAG) + Float64LE(count)
  }

  /** Two headers followed by anything agree only on equal counts. */
  lemma HeaderInjective(c1: SafeInteger, b1: seq<byte>, r1: seq<byte>, c2: SafeInteger, b2: seq<byte>, r2: seq<byte>)
    requires Header(c1) + b1 + r1 == Header(c2) + b2 + r2
    ensures c1 == c2 && b1 + r1 == b2 + r2
  {
    assert Header(c1) + b1 + r1 == Header(c1) + (b1 + r1);
    assert Header(c2) + b2 + r2 == Header(c2) + (b2 + r2);
    SplitAt(Header(c1), b1 + r1, Header(c2), b2 + r2);
    assert Float64LE(c1) == Header(c1)[1..] && Float64LE(c2) == Header(c2)[1..];
    Float64Injective(c1, c2);
  }

  /** A directory whose names need no sorting: its header, then its listing
      in order. */
  lemma DirStream(n: Node, p: Path)
    requires n.Dir? && NodeStream(n, p).Ok? && SortNames(Names(n.entries)) == Names(n.entries)
    ensures EntriesStream(n, Names(n.entries), p).Ok?
    ensures NodeStream(n, p).value == Header(|n.entries|) + EntriesStream(n, Names(n.entries), p).value
  {
    hide EntriesStream, Float64LE;
  }

  /** The directory case of NodeStreamPrefixInjective. */
  lemma {:induction false} DirectoryPrefixInjective(n1: Node, p1: Path, r1: seq<byte>, n2: Node, p2: Path, r2: seq<byte>)
    requires n1.Dir? && n2.Dir? && Canonical(n1) && Canonical(n2)
    requires NodeStream(n1, p1).Ok? && NodeStream(n2, p2).Ok?
    requires NodeStream(n1, p1).value + r1 == NodeStream(n2, p2).value + r2
    ensures n1 == n2 && r1 == r2
    decreases n1, 0
  {
    var e1, e2 := n1.entries, n2.entries;
    CanonicalNamesSorted(e1);
    CanonicalNamesSorted(e2);
    var names1, names2 := Names(e1), Names(e2);
    DirStream(n1, p1);
    DirStream(n2, p2);
    hide NodeStream, EntriesStream, Header, SortNames;
    var body1 := EntriesStream(n1, names1, p1).value;
    var body2 := EntriesStream(n2, names2, p2).value;
    HeaderInjective(|e1|, body1, r1, |e2|, body2, r2);
    forall k | 0 <= k < |names1| ensures names1[k] in Names(e1) && NulFree(names1[k]) {
      assert names1[k] == e1[k].name;
    }
    forall k | 0 <= k < |names2| ensures names2[k] in Names(e2) && NulFree(names2[k]) {
      assert names2[k] == e2[k].name;
    }
    EntriesPrefixInjective(n1, names1, p1, r1, n2, names2, p2, r2);
    forall k | 0 <= k < |e1| ensures e1[k] == e2[k] {
      FindOwnEntry(e1, k);
      FindOwnEntry(e2, k);
      assert e1[k].name == names1[k] == names2[k] == e2[k].name;
      assert Lookup(n1, names1[k]) == Lookup(n2, names2[k]);
    }
  }

  /** A canonical listing's names are already in the order sorting gives,
      each once. */
  lemma CanonicalNamesSorted(entries: seq<Entry>)
    requires Canonical(Dir(entries))
    ensures SortNames(Names(entries)) == Names(entries)
    ensures DistinctNames(entries)
  {
    var names := Names(entries);
    SortedUnique(SortNames(names), names);
    forall i, j | 0 <= i < j < |entries| ensures entries[i].name != entries[j].name {
      assert names[i] == entries[i].name && names[j] == entries[j].name;
    }
  }

  /** Two listings of canonical directories whose streams agree, followed by
      anything, list the same names with the same entries. */
  lemma {:induction false} EntriesPrefixInjective(d1: Node, names1: seq<Name>, p1: Path, r1: seq<byte>,
                                                   d2: Node, names2: seq<Name>, p2: Path, r2: seq<byte>)
    requires d1.Dir? && d2.Dir? && Canonical(d1) && Canonical(d2)
    requires |names1| == |names2|
    requires forall k :: 0 <= k < |names1| ==> names1[k] in Names(d1.entries) && NulFree(names1[k])
    requires forall k :: 0 <= k < |names2| ==> names2[k] in Names(d2.entries) && NulFree(names2[k])
    requires EntriesStream(d1, names1, p1).Ok? && EntriesStream(d2, names2, p2).Ok?
    requires EntriesStream(d1, names1, p1).value + r1 == EntriesStream(d2, names2, p2).value + r2
    ensures names1 == names2 && r1 == r2
    ensures forall name | name in names1 :: Lookup(d1, name) == Lookup(d2, name)
    decreases d1, 0, |names1|, 1
  {
    hide Canonical, NulFree, Lookup, Names, FindEntry, NodeStream;
    if names1 == [] {
      assert EntriesStream(d1, names1, p1).value == [] && EntriesStream(d2, names2, p2).value == [];
      assert [] + r1 == r1 && [] + r2 == r2;
    } else {
      var t1, t2 := FirstEntryInjective(d1, names1, p1, r1, d2, names2, p2, r2);
      hide EntriesStream;
      EntriesPrefixInjective(d1, names1[1..], p1, r1, d2, names2[1..], p2, r2);
      assert names1 == [names1[0]] + names1[1..] && names2 == [names2[0]] + names2[1..];
    }
  }

  /** The first entries of two agreeing listings: the same name, the same
      entry, and the rest of the streams agree. */
  lemma {:induction false} FirstEntryInjective(d1: Node, names1: seq<Name>, p1: Path, r1: seq<byte>,
                                               d2: Node, names2: seq<Name>, p2: Path, r2: seq<byte>)
      returns (t1: seq<byte>, t2: seq<byte>)
    requires d1.Dir? && d2.Dir? && Canonical(d1) && Canonical(d2)
    requires names1 != [] && names2 != []
    requires names1[0] in Names(d1.entries) && NulFree(names1[0])
    requires names2[0] in Names(d2.entries) && NulFree(names2[0])
    requires EntriesStream(d1, names1, p1).Ok? && EntriesStream(d2, names2, p2).Ok?
    requires EntriesStream(d1, names1, p1).value + r1 == EntriesStream(d2, names2, p2).value + r2
    ensures names1[0] == names2[0]
    ensures Lookup(d1, names1[0]) == Lookup(d2, names2[0])
    ensures EntriesStream(d1, names1[1..], p1) == Ok(t1) && EntriesStream(d2, names2[1..], p2) == Ok(t2)
    ensures t1 + r1 == t2 + r2
    decreases d1, 0, |names1|, 0
  {
    EntriesStreamCons(d1, names1, p1);
    EntriesStreamCons(d2, names2, p2);
    var c1, c2 := Lookup(d1, names1[0]).value, Lookup(d2, names2[0]).value;
    assert Canonical(c1) && Canonical(c2);
    hide NodeStream, EntriesStream, EntryBytes, Canonical, Lookup;
    var s1 := NodeStream(c1, p1 + [names1[0]]).value;
    var s2 := NodeStream(c2, p2 + [names2[0]]).value;
    t1 := EntriesStream(d1, names1[1..], p1).value;
    t2 := EntriesStream(d2, names2[1..], p2).value;
    Reassoc(names1[0], s1, t1, r1);
    Reassoc(names2[0], s2, t2, r2);
    NulDelimited(names1[0], names2[0], s1 + (t1 + r1), s2 + (t2 + r2));
    NodeStreamPrefixInjective(c1, p1 + [names1[0]], t1 + r1, c2, p2 + [names2[0]], t2 + r2);
  }

  lemma Reassoc(name: Name, s: seq<byte>, t: seq<byte>, r: seq<byte>)
    ensures EntryBytes(name, s) + t + r == name + [0] + (s + (t + r))
  {
  }

  /** Two canonical trees with the same stream are the same tree: between
      canonical trees, changing any mode, mtime or size, or adding, removing
      or renaming an entry anywhere below, changes what is hashed.
      HashCanonicalForm lifts this to trees listed in any order. */
  lemma StreamDeterminesTree(n1: Node, p1: Path, n2: Node, p2: Path)
    requires Canonical(n1) && Canonical(n2)
    requires NodeStream(n1, p1).Ok? && NodeStream(n1, p1) == NodeStream(n2, p2)
    ensures n1 == n2
  {
    NodeStreamPrefixInjective(n1, p1, [], n2, p2, []);
  }

  /** hashFiles' stream of a non-empty list is its first path's stream
      followed by the rest's. */
  lemma {:induction false} FilesStreamFront(fs: Node, paths: seq<Path>)
    requires paths != [] && FilesStream(fs, paths).Ok?
    ensures PathStream(fs, paths[0]).Ok? && FilesStream(fs, paths[1..]).Ok?
    ensures FilesStream(fs, paths).value == PathStream(fs, paths[0]).value + FilesStream(fs, paths[1..]).value
    decreases |paths|
  {
    hide PathStream;
    var init, rest := paths[..|paths| - 1], paths[1..];
    var last := PathStream(fs, paths[|paths| - 1]);
    if |paths| == 1 {
      assert rest == [] && init == [];
      assert FilesStream(fs, paths).value == [] + last.value;
      assert last.value + [] == last.value;
    } else {
      FilesStreamFront(fs, init);
      assert init[0] == paths[0] && init[1..] == rest[..|rest| - 1];
      assert rest[|rest| - 1] == paths[|paths| - 1];
      var s0 := PathStream(fs, paths[0]).value;
      var middle := FilesStream(fs, init[1..]).value;
      assert FilesStream(fs, rest).value == middle + last.value;
      assert FilesStream(fs, paths).value == (s0 + middle) + last.value;
      assert (s0 + middle) + last.value == s0 + (middle + last.value);
    }
  }
}
