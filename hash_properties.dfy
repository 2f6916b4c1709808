/** What the dependency fingerprint of hash-files.js guarantees: the layout
    of a file's record, change detection, independence from readdir order,
    exactly when hashing fails, and how the streams of several paths
    compose. */
module HashFilesProperties {
  import opened Results
  import opened ByteEncoding
  import opened FileTree
  import opened HashFiles

  // ---- a regular file's record ----

  /** A regular file contributes exactly 17 bytes: the tag 0, the mode in two
      bytes, the mtime in six and the size in eight, least significant byte
      first, and nothing of its content. */
  lemma FileRecordLayout(mode: nat, mtime: nat, size: nat)
    ensures |FileRecord(mode, mtime, size)| == 17
    ensures FileRecord(mode, mtime, size)[0] == FILE_TAG
    ensures DecodeLittleEndian(FileRecord(mode, mtime, size)[1..3]) == mode % 0x1_0000
    ensures DecodeLittleEndian(FileRecord(mode, mtime, size)[3..9]) == mtime % 0x1_0000_0000_0000
    ensures FileRecord(mode, mtime, size)[9..17] == Float64LE(size)
  {
    hide Float64LE;
    var r := FileRecord(mode, mtime, size);
    UIntWritersRoundTrip(FILE_TAG);
    UIntWritersRoundTrip(mode);
    UIntWritersRoundTrip(mtime);
    assert UInt8(FILE_TAG) == [0];
    assert r[1..3] == UInt16LE(mode);
    assert r[3..9] == UInt48LE(mtime);
    assert r[9..17] == Float64LE(size);
  }

  /** Changing a file's mode, mtime or size changes its record, as long as
      each fits the width it is written in. */
  lemma FileRecordInjective(mode1: nat, mtime1: nat, size1: SafeInteger, mode2: nat, mtime2: nat, size2: SafeInteger)
    requires mode1 < 0x1_0000 && mode2 < 0x1_0000
    requires mtime1 < 0x1_0000_0000_0000 && mtime2 < 0x1_0000_0000_0000
    requires FileRecord(mode1, mtime1, size1) == FileRecord(mode2, mtime2, size2)
    ensures mode1 == mode2 && mtime1 == mtime2 && size1 == size2
  {
    FileRecordLayout(mode1, mtime1, size1);
    FileRecordLayout(mode2, mtime2, size2);
    Float64Injective(size1, size2);
  }

  // ---- a directory's header ----

  /** The entry count heads a directory's stream, so a directory that gains
      or loses entries hashes differently. */
  lemma EntryCountDetected(entries1: seq<Entry>, entries2: seq<Entry>, p: Path)
    requires |entries1| != |entries2|
    requires |entries1| < 0x20_0000_0000_0000 && |entries2| < 0x20_0000_0000_0000
    requires NodeStream(Dir(entries1), p).Ok? && NodeStream(Dir(entries2), p).Ok?
    ensures NodeStream(Dir(entries1), p) != NodeStream(Dir(entries2), p)
  {
    var names1 := SortNames(Names(entries1));
    var names2 := SortNames(Names(entries2));
    var s1 := NodeStream(Dir(entries1), p).value;
    var s2 := NodeStream(Dir(entries2), p).value;
    assert s1[1..9] == Float64LE(|entries1|) by {
      assert s1 == UInt8(DIR_TAG) + Float64LE(|names1|) + EntriesStream(Dir(entries1), names1, p).value;
    }
    assert s2[1..9] == Float64LE(|entries2|) by {
      assert s2 == UInt8(DIR_TAG) + Float64LE(|names2|) + EntriesStream(Dir(entries2), names2, p).value;
    }
    if s1 == s2 {
      Float64Injective(|entries1|, |entries2|);
    }
  }

  // ---- independence from the order readdirSync lists entries in ----

  /** A directory lists each name at most once. */
  ghost predicate DistinctNames(entries: seq<Entry>)
  {
    forall i, j :: 0 <= i < j < |entries| ==> entries[i].name != entries[j].name
  }

  lemma NamesConcat(a: seq<Entry>, b: seq<Entry>)
    ensures Names(a + b) == Names(a) + Names(b)
  {
    assert |Names(a + b)| == |Names(a) + Names(b)|;
    forall i | 0 <= i < |a| + |b| ensures Names(a + b)[i] == (Names(a) + Names(b))[i] {
      if i < |a| {
        assert (a + b)[i] == a[i];
      } else {
        assert (a + b)[i] == b[i - |a|];
      }
    }
  }

  /** Taking one entry out of a listing takes its name out of the names. */
  lemma {:induction false} NamesRemove(b: seq<Entry>, k: nat)
    requires k < |b|
    ensures multiset(Names(b)) == multiset(Names(b[..k] + b[k + 1..])) + multiset{b[k].name}
    decreases k, 1
  {
    hide Names;
    if k == 0 {
      NamesCons(b);
      assert b[..k] + b[k + 1..] == b[1..];
      assert Names(b[..k] + b[k + 1..]) == Names(b[1..]);
    } else {
      NamesRemoveLater(b, k);
    }
  }

  lemma {:induction false} NamesRemoveLater(b: seq<Entry>, k: nat)
    requires 0 < k < |b|
    ensures multiset(Names(b)) == multiset(Names(b[..k] + b[k + 1..])) + multiset{b[k].name}
    decreases k, 0
  {
    hide Names;
    var rest := b[1..];
    var s := b[..k] + b[k + 1..];
    NamesCons(b);
    NamesRemove(rest, k - 1);
    WithoutLater(b, k);
    NamesCons(s);
    var x, y := b[0].name, b[k].name;
    assert multiset(Names(b)) == multiset{x} + multiset(Names(rest));
    assert multiset(Names(rest)) == multiset(Names(s[1..])) + multiset{y};
    assert multiset(Names(s)) == multiset{x} + multiset(Names(s[1..]));
  }

  /** Removing a later element keeps the head and removes from the tail. */
  lemma WithoutLater<T>(b: seq<T>, k: nat)
    requires 0 < k < |b|
    ensures b[..k] + b[k + 1..] != []
    ensures (b[..k] + b[k + 1..])[0] == b[0]
    ensures (b[..k] + b[k + 1..])[1..] == b[1..][..k - 1] + b[1..][k..]
    ensures b[1..][k - 1] == b[k]
  {
  }

  lemma MultisetWithout<T>(b: seq<T>, k: nat)
    requires k < |b|
    ensures multiset(b[..k] + b[k + 1..]) == multiset(b) - multiset{b[k]}
  {
    assert b == b[..k] + [b[k]] + b[k + 1..];
  }

  lemma IndexOf<T>(b: seq<T>, x: T) returns (k: nat)
    requires x in multiset(b)
    ensures k < |b| && b[k] == x
  {
    k :| 0 <= k < |b| && b[k] == x;
  }

  lemma NamesCons(a: seq<Entry>)
    requires a != []
    ensures multiset(Names(a)) == multiset{a[0].name} + multiset(Names(a[1..]))
  {
    assert Names(a) == [a[0].name] + Names(a[1..]);
  }

  /** Two listings of the same entries list the same names. */
  lemma {:induction false} NamesPermutation(a: seq<Entry>, b: seq<Entry>)
    requires multiset(a) == multiset(b)
    ensures multiset(Names(a)) == multiset(Names(b))
    decreases |a|
  {
    if a != [] {
      hide Names;
      var k := IndexOf(b, a[0]);
      var rest := b[..k] + b[k + 1..];
      TailPermutation(a, b, k);
      NamesPermutation(a[1..], rest);
      NamesRemove(b, k);
      NamesCons(a);
      var x := a[0].name;
      assert multiset(Names(a)) == multiset{x} + multiset(Names(a[1..]));
      assert multiset(Names(b)) == multiset(Names(rest)) + multiset{x};
    }
  }

  /** Taking the same entry out of two listings of the same entries leaves
      listings of the same entries. */
  lemma TailPermutation<T>(a: seq<T>, b: seq<T>, k: nat)
    requires a != [] && k < |b| && b[k] == a[0] && multiset(a) == multiset(b)
    ensures multiset(a[1..]) == multiset(b[..k] + b[k + 1..])
  {
    MultisetWithout(a, 0);
    MultisetWithout(b, k);
    assert a[..0] + a[1..] == a[1..];
  }

  /** Looking a name up in two listings of the same entries finds the same
      node, or fails in both. */
  lemma LookupAgrees(a: seq<Entry>, b: seq<Entry>, name: Name)
    requires multiset(a) == multiset(b) && DistinctNames(a) && DistinctNames(b)
    ensures FindEntry(a, name) < 0 <==> FindEntry(b, name) < 0
    ensures FindEntry(a, name) >= 0 ==> a[FindEntry(a, name)].node == b[FindEntry(b, name)].node
  {
    var i := FindEntry(a, name);
    var j := FindEntry(b, name);
    if i >= 0 {
      assert a[i] in multiset(b);
      var k :| 0 <= k < |b| && b[k] == a[i];
      assert Names(b)[k] == name;
      assert j >= 0;
      assert b[j].name == b[k].name;
      assert j == k;
    }
    if j >= 0 {
      assert b[j] in multiset(a);
      var k :| 0 <= k < |a| && a[k] == b[j];
      assert Names(a)[k] == name;
    }
  }

  /** Entries looked up in directories that list the same names, with
      children that contribute the same bytes, contribute the same bytes. */
  lemma {:induction false} EntriesStreamSameLookups(d1: Node, d2: Node, names: seq<Name>, p: Path)
    requires d1.Dir? && d2.Dir?
    requires forall k :: 0 <= k < |names| ==>
      (FindEntry(d1.entries, names[k]) < 0 <==> FindEntry(d2.entries, names[k]) < 0)
    requires forall k :: 0 <= k < |names| && FindEntry(d1.entries, names[k]) >= 0 ==>
      NodeStream(d1.entries[FindEntry(d1.entries, names[k])].node, p + [names[k]]) ==
      NodeStream(d2.entries[FindEntry(d2.entries, names[k])].node, p + [names[k]])
    ensures EntriesStream(d1, names, p) == EntriesStream(d2, names, p)
    decreases |names|
  {
    if names != [] {
      var prefix := names[..|names| - 1];
      assert forall k :: 0 <= k < |prefix| ==> prefix[k] == names[k];
      EntriesStreamSameLookups(d1, d2, prefix, p);
    }
  }

  /** Sorting before folding makes a directory's contribution independent of
      the order readdirSync happens to list its entries in. */
  lemma ReaddirOrderIrrelevant(entries1: seq<Entry>, entries2: seq<Entry>, p: Path)
    requires multiset(entries1) == multiset(entries2)
    requires DistinctNames(entries1) && DistinctNames(entries2)
    ensures NodeStream(Dir(entries1), p) == NodeStream(Dir(entries2), p)
  {
    var names1 := SortNames(Names(entries1));
    var names2 := SortNames(Names(entries2));
    NamesPermutation(entries1, entries2);
    SortedUnique(names1, names2);
    forall k | 0 <= k < |names1|
      ensures FindEntry(entries1, names1[k]) < 0 <==> FindEntry(entries2, names1[k]) < 0
      ensures FindEntry(entries1, names1[k]) >= 0 ==>
        entries1[FindEntry(entries1, names1[k])].node == entries2[FindEntry(entries2, names1[k])].node
    {
      LookupAgrees(entries1, entries2, names1[k]);
    }
    EntriesStreamSameLookups(Dir(entries1), Dir(entries2), names1, p);
  }

  // ---- when hashing fails ----

  /** Every directory in the tree lists each name at most once, as a real
      filesystem does. */
  ghost predicate WellFormed(n: Node)
    decreases n
  {
    match n
    case Dir(entries) =>
      DistinctNames(entries) && forall i :: 0 <= i < |entries| ==> WellFormed(entries[i].node)
    case _ => true
  }

  /** The tree holds something that is neither a regular file nor a directory. */
  ghost predicate ContainsSpecial(n: Node)
    decreases n
  {
    match n
    case Special => true
    case File(_, _, _) => false
    case Dir(entries) => exists i :: 0 <= i < |entries| && ContainsSpecial(entries[i].node)
  }

  /** A name taken from a listing without repeated names finds its own entry. */
  lemma FindOwnEntry(entries: seq<Entry>, i: nat)
    requires DistinctNames(entries) && i < |entries|
    ensures FindEntry(entries, entries[i].name) == i
  {
    assert Names(entries)[i] == entries[i].name;
  }

  /** The entry a listed name stands for. */
  ghost function Child(dir: Node, name: Name): Node
    requires dir.Dir? && name in Names(dir.entries)
  {
    dir.entries[FindEntry(dir.entries, name)].node
  }

  /** Some entry among the given names holds a special file. */
  ghost predicate SpecialAmong(dir: Node, names: seq<Name>)
    requires dir.Dir? && forall k :: 0 <= k < |names| ==> names[k] in Names(dir.entries)
  {
    exists k :: 0 <= k < |names| && ContainsSpecial(Child(dir, names[k]))
  }

  /** Walking a tree read from a real filesystem fails exactly when the tree
      holds a special file, and then with "Unexpected file type". */
  lemma {:induction false} NodeStreamFailsIff(n: Node, p: Path)
    requires WellFormed(n)
    ensures NodeStream(n, p).Err? <==> ContainsSpecial(n)
    ensures NodeStream(n, p).Err? ==> NodeStream(n, p).error.UnexpectedFileType?
    decreases n, 1
  {
    hide FileRecord, Float64LE, EntriesStream;
    match n
    case File(_, _, _) =>
    case Special =>
    case Dir(entries) =>
      var names := SortNames(Names(entries));
      forall k | 0 <= k < |names| ensures names[k] in Names(entries) {
        assert names[k] in multiset(names);
      }
      EntriesStreamFailsIff(n, names, p);
      if ContainsSpecial(n) {
        var i :| 0 <= i < |entries| && ContainsSpecial(entries[i].node);
        assert entries[i].name in multiset(names) by {
          assert Names(entries)[i] == entries[i].name;
        }
        var k :| 0 <= k < |names| && names[k] == entries[i].name;
        FindOwnEntry(entries, i);
        assert ContainsSpecial(Child(n, names[k]));
      }
  }

  lemma SpecialAmongSnoc(dir: Node, names: seq<Name>)
    requires dir.Dir? && names != []
    requires forall k :: 0 <= k < |names| ==> names[k] in Names(dir.entries)
    ensures SpecialAmong(dir, names) <==>
      SpecialAmong(dir, names[..|names| - 1]) || ContainsSpecial(Child(dir, names[|names| - 1]))
  {
    SpecialAmongPrefix(dir, names);
    SpecialAmongSplit(dir, names);
  }

  lemma SpecialAmongPrefix(dir: Node, names: seq<Name>)
    requires dir.Dir? && names != []
    requires forall k :: 0 <= k < |names| ==> names[k] in Names(dir.entries)
    ensures SpecialAmong(dir, names[..|names| - 1]) ==> SpecialAmong(dir, names)
  {
    hide ContainsSpecial, Child;
    var prefix := names[..|names| - 1];
    if SpecialAmong(dir, prefix) {
      var k :| 0 <= k < |prefix| && ContainsSpecial(Child(dir, prefix[k]));
      assert prefix[k] == names[k];
    }
  }

  lemma SpecialAmongSplit(dir: Node, names: seq<Name>)
    requires dir.Dir? && names != []
    requires forall k :: 0 <= k < |names| ==> names[k] in Names(dir.entries)
    ensures SpecialAmong(dir, names) ==>
      SpecialAmong(dir, names[..|names| - 1]) || ContainsSpecial(Child(dir, names[|names| - 1]))
  {
    hide ContainsSpecial, Child;
    var prefix := names[..|names| - 1];
    if SpecialAmong(dir, names) {
      var k :| 0 <= k < |names| && ContainsSpecial(Child(dir, names[k]));
      if k < |prefix| {
        assert prefix[k] == names[k];
      }
    }
  }

  lemma ChildWellFormed(dir: Node, name: Name)
    requires dir.Dir? && WellFormed(dir) && name in Names(dir.entries)
    ensures WellFormed(Child(dir, name))
  {
  }

  /** The entries part of NodeStreamFailsIff. */
  lemma {:induction false} EntriesStreamFailsIff(dir: Node, names: seq<Name>, p: Path)
    requires dir.Dir? && WellFormed(dir)
    requires forall k :: 0 <= k < |names| ==> names[k] in Names(dir.entries)
    ensures EntriesStream(dir, names, p).Err? <==> SpecialAmong(dir, names)
    ensures EntriesStream(dir, names, p).Err? ==> EntriesStream(dir, names, p).error.UnexpectedFileType?
    decreases dir, 0, |names|
  {
    if names != [] {
      hide FileRecord, Float64LE, NodeStream, ContainsSpecial, WellFormed, EntriesStream, SpecialAmong, Child, Names;
      var last := |names| - 1;
      var prefix := names[..last];
      assert forall k :: 0 <= k < |prefix| ==> prefix[k] == names[k];
      EntriesStreamFailsIff(dir, prefix, p);
      var c := Child(dir, names[last]);
      ChildWellFormed(dir, names[last]);
      NodeStreamFailsIff(c, p + [names[last]]);
      SpecialAmongSnoc(dir, names);
      EntriesStreamSnoc(dir, names, p);
    }
  }

  /** A listing fails when its prefix does or when its last entry does, and
      with the first of those errors. */
  lemma EntriesStreamSnoc(dir: Node, names: seq<Name>, p: Path)
    requires dir.Dir? && names != [] && names[|names| - 1] in Names(dir.entries)
    ensures var prefix := EntriesStream(dir, names[..|names| - 1], p);
      var child := NodeStream(Child(dir, names[|names| - 1]), p + [names[|names| - 1]]);
      && (EntriesStream(dir, names, p).Err? <==> prefix.Err? || child.Err?)
      && (EntriesStream(dir, names, p).Err? ==>
            EntriesStream(dir, names, p).error == if prefix.Err? then prefix.error else child.error)
  {
    hide FileRecord, Float64LE, NodeStream;
  }

  /** The subtree a path leads to in a well-formed tree is well formed. */
  lemma {:induction false} ResolveWellFormed(root: Node, path: Path, n: Node)
    requires WellFormed(root) && Resolve(root, path) == Some(n)
    ensures WellFormed(n)
    decreases |path|
  {
    if path != [] {
      var i := FindEntry(root.entries, path[0]);
      ResolveWellFormed(root.entries[i].node, path[1..], n);
    }
  }

  /** updateHash on a path fails exactly when statSync finds nothing there
      (StatFailed) or the tree under it holds a special file
      (UnexpectedFileType). */
  lemma PathStreamFailsIff(fs: Node, p: Path)
    requires WellFormed(fs)
    ensures Resolve(fs, p).None? ==> PathStream(fs, p) == Err(StatFailed(p))
    ensures Resolve(fs, p).Some? ==>
      (PathStream(fs, p).Err? <==> ContainsSpecial(Resolve(fs, p).value))
  {
    if Resolve(fs, p).Some? {
      ResolveWellFormed(fs, p, Resolve(fs, p).value);
      NodeStreamFailsIff(Resolve(fs, p).value, p);
    }
  }

  // ---- several paths into one context ----

  /** hashFiles fails exactly when one of its paths fails, and then with the
      error of the first one that does. */
  lemma {:induction false} FilesStreamFailsIff(fs: Node, paths: seq<Path>)
    ensures FilesStream(fs, paths).Err? <==> exists i :: 0 <= i < |paths| && PathStream(fs, paths[i]).Err?
    ensures FilesStream(fs, paths).Err? ==>
      exists i :: 0 <= i < |paths| && FilesStream(fs, paths) == PathStream(fs, paths[i]) &&
        forall j :: 0 <= j < i ==> PathStream(fs, paths[j]).Ok?
    decreases |paths|
  {
    hide PathStream;
    if paths != [] {
      var last := |paths| - 1;
      var prefix := paths[..last];
      assert forall j :: 0 <= j < |prefix| ==> prefix[j] == paths[j];
      FilesStreamFailsIff(fs, prefix);
      if FilesStream(fs, prefix).Ok? && PathStream(fs, paths[last]).Err? {
        assert FilesStream(fs, paths) == PathStream(fs, paths[last]);
      }
    }
  }

  /** The stream of a list of paths is the concatenation of the streams of
      its parts: the digest depends only on the per-path streams, in list
      order. */
  lemma {:induction false} FilesStreamConcat(fs: Node, a: seq<Path>, b: seq<Path>)
    requires FilesStream(fs, a).Ok? && FilesStream(fs, b).Ok?
    ensures FilesStream(fs, a + b) == Ok(FilesStream(fs, a).value + FilesStream(fs, b).value)
    decreases |b|
  {
    hide PathStream;
    if b == [] {
      assert a + b == a;
      assert FilesStream(fs, a).value + [] == FilesStream(fs, a).value;
    } else {
      var last := |b| - 1;
      assert (a + b)[..|a + b| - 1] == a + b[..last];
      assert (a + b)[|a + b| - 1] == b[last];
      var s := PathStream(fs, b[last]);
      assert FilesStream(fs, b[..last]).Ok? && s.Ok?;
      FilesStreamConcat(fs, a, b[..last]);
      var x := FilesStream(fs, a).value;
      var y := FilesStream(fs, b[..last]).value;
      assert FilesStream(fs, b).value == y + s.value;
      assert FilesStream(fs, a + b) == Ok(x + y + s.value);
      assert x + y + s.value == x + (y + s.value);
    }
  }
}
