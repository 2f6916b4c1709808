/** A tree as readdirSync may list it, in any order at every level, hashes
    like one canonical tree: the same tree with every listing in ascending
    name order. So two Bounded trees (fields within their widths, NUL-free
    and distinct names) feed hashFiles the same bytes exactly when they are
    the same tree up to listing order, and a dependency list of such trees
    hashes alike on two filesystems exactly when every dependency is. */
module HashCanonicalForm {
  import opened Results
  import opened ByteEncoding
  import opened FileTree
  import opened HashFiles
  import opened HashFilesProperties
  import opened HashStreamInjective

  /** A tree a filesystem can hold whose record fields fit the widths they
      are written in: distinct NUL-free names in every directory, fewer than
      2^53 entries, mode below 2^16, mtime below 2^48 and size below 2^53. */
  ghost predicate Bounded(n: Node)
    decreases n
  {
    match n
    case File(mode, mtime, size) =>
      mode < 0x1_0000 && mtime < 0x1_0000_0000_0000 && size < 0x20_0000_0000_0000
    case Dir(entries) =>
      && |entries| < 0x20_0000_0000_0000
      && DistinctNames(entries)
      && forall i :: 0 <= i < |entries| ==> NulFree(entries[i].name) && Bounded(entries[i].node)
    case Special => true
  }

  /** The tree with every listing in the order hash-files.js walks it. */
  function Canon(n: Node): (r: Node)
    ensures n.Dir? <==> r.Dir?
    decreases n, 1
  {
    match n
    case Dir(entries) =>
      var names := SortNames(Names(entries));
      Dir(seq(|names|, k requires 0 <= k < |names| =>
        assert names[k] in multiset(Names(entries));
        CanonEntry(n, names[k])))
    case _ => n
  }

  /** The entry called name, with its node in canonical form. */
  function CanonEntry(dir: Node, name: Name): (e: Entry)
    requires dir.Dir? && name in Names(dir.entries)
    ensures e.name == name
    decreases dir, 0
  {
    Entry(name, Canon(dir.entries[FindEntry(dir.entries, name)].node))
  }

  /** Every sorted name is listed. */
  lemma SortedNamesListed(entries: seq<Entry>)
    ensures var names := SortNames(Names(entries));
      forall k :: 0 <= k < |names| ==> names[k] in Names(entries)
  {
    var names := SortNames(Names(entries));
    forall k | 0 <= k < |names| ensures names[k] in Names(entries) {
      assert names[k] in multiset(names);
    }
  }

  /** The canonical listing, entry by entry. */
  lemma CanonEntries(n: Node)
    requires n.Dir?
    ensures var names := SortNames(Names(n.entries));
      forall k :: 0 <= k < |names| ==> names[k] in Names(n.entries)
    ensures var names := SortNames(Names(n.entries));
      && |Canon(n).entries| == |names|
      && forall k :: 0 <= k < |names| ==> Canon(n).entries[k] == CanonEntry(n, names[k])
  {
    SortedNamesListed(n.entries);
  }

  lemma BoundedWellFormed(n: Node)
    requires Bounded(n)
    ensures WellFormed(n)
    decreases n
  {
    if n.Dir? {
      forall i | 0 <= i < |n.entries| ensures WellFormed(n.entries[i].node) {
        BoundedWellFormed(n.entries[i].node);
      }
    }
  }

  /** A sequence without repetitions holds each value at most once. */
  lemma {:induction false} DistinctCount(s: seq<Name>)
    requires forall i, j :: 0 <= i < j < |s| ==> s[i] != s[j]
    ensures forall x :: multiset(s)[x] <= 1
    decreases |s|
  {
    if s != [] {
      DistinctCount(s[1..]);
      assert s == [s[0]] + s[1..];
      assert s[0] !in s[1..];
    }
  }

  /** A value at two positions is held at least twice. */
  lemma DuplicateCounted(s: seq<Name>, i: nat, j: nat)
    requires i < j < |s| && s[i] == s[j]
    ensures multiset(s)[s[i]] >= 2
  {
    assert s == s[..j] + [s[j]] + s[j + 1..];
    assert s[i] in s[..j];
  }

  /** Sorting a listing with distinct names gives distinct names. */
  lemma SortedNamesDistinct(entries: seq<Entry>)
    requires DistinctNames(entries)
    ensures var names := SortNames(Names(entries));
      forall i, j :: 0 <= i < j < |names| ==> names[i] != names[j]
  {
    var names := SortNames(Names(entries));
    DistinctCount(Names(entries));
    forall i, j | 0 <= i < j < |names| ensures names[i] != names[j] {
      if names[i] == names[j] {
        DuplicateCounted(names, i, j);
        assert false;
      }
    }
  }

  /** The canonical listing is the sorted names, each found at its own
      position. */
  lemma CanonListing(n: Node)
    requires n.Dir? && DistinctNames(n.entries)
    ensures Names(Canon(n).entries) == SortNames(Names(n.entries))
    ensures DistinctNames(Canon(n).entries)
    ensures forall k :: 0 <= k < |Canon(n).entries| ==> FindEntry(Canon(n).entries, Canon(n).entries[k].name) == k
  {
    var names := SortNames(Names(n.entries));
    CanonEntries(n);
    hide Canon, CanonEntry, SortNames;
    var c := Canon(n).entries;
    assert forall k :: 0 <= k < |names| ==> Names(c)[k] == c[k].name == names[k];
    assert Names(c) == names;
    SortedNamesDistinct(n.entries);
    forall k | 0 <= k < |c| ensures FindEntry(c, c[k].name) == k {
      FindOwnEntry(c, k);
    }
  }

  /** The canonical form of a bounded tree is canonical. */
  lemma {:induction false} CanonCanonical(n: Node)
    requires Bounded(n)
    ensures Canonical(Canon(n))
    decreases n, 1
  {
    if n.Dir? {
      var names := SortNames(Names(n.entries));
      CanonEntries(n);
      CanonListing(n);
      SortedNamesDistinct(n.entries);
      assert |n.entries| < 0x20_0000_0000_0000;
      hide Canon, CanonEntry, SortNames, Bounded;
      var c := Canon(n).entries;
      forall i | 0 <= i < |c| ensures NulFree(c[i].name) && Canonical(c[i].node) {
        CanonEntryCanonical(n, names[i]);
      }
      assert StrictlyAscending(Names(c));
    }
  }

  lemma {:induction false} CanonEntryCanonical(n: Node, name: Name)
    requires n.Dir? && Bounded(n) && name in Names(n.entries)
    ensures NulFree(name) && Canonical(CanonEntry(n, name).node)
    decreases n, 0
  {
    var j := FindEntry(n.entries, name);
    CanonCanonical(n.entries[j].node);
  }

  /** Listing a tree canonically does not change its stream, whether that
      stream is bytes or an error. */
  lemma {:induction false} CanonStream(n: Node, p: Path)
    requires WellFormed(n)
    ensures NodeStream(Canon(n), p) == NodeStream(n, p)
    decreases n
  {
    if n.Dir? {
      var names := SortNames(Names(n.entries));
      var c := Canon(n);
      CanonEntries(n);
      CanonListing(n);
      SortedUnique(SortNames(names), names);
      assert NodeStream(c, p) == match EntriesStream(c, names, p)
        case Err(e) => Err(e)
        case Ok(body) => Ok(UInt8(DIR_TAG) + Float64LE(|names|) + body);
      hide Canon, CanonEntry, SortNames, NodeStream, WellFormed;
      forall k | 0 <= k < |names|
        ensures FindEntry(c.entries, names[k]) < 0 <==> FindEntry(n.entries, names[k]) < 0
        ensures FindEntry(c.entries, names[k]) >= 0 ==>
          NodeStream(c.entries[FindEntry(c.entries, names[k])].node, p + [names[k]]) ==
          NodeStream(n.entries[FindEntry(n.entries, names[k])].node, p + [names[k]])
      {
        assert c.entries[k].name == names[k];
        assert names[k] in multiset(Names(n.entries));
        var j := FindEntry(n.entries, names[k]);
        CanonStream(n.entries[j].node, p + [names[k]]);
      }
      EntriesStreamSameLookups(c, n, names, p);
    }
  }

  /** A canonical tree is its own canonical form. */
  lemma {:induction false} CanonOfCanonical(n: Node)
    requires Canonical(n)
    ensures Canon(n) == n
    decreases n
  {
    if n.Dir? {
      CanonicalNamesSorted(n.entries);
      CanonEntries(n);
      hide Canon, Canonical, SortNames, Names;
      var c := Canon(n).entries;
      forall k | 0 <= k < |c| ensures c[k] == n.entries[k] {
        assert Names(n.entries)[k] == n.entries[k].name;
        FindOwnEntry(n.entries, k);
        CanonOfCanonical(n.entries[k].node);
      }
      assert c == n.entries;
    }
  }

  /** Two bounded trees feed the hash the same bytes exactly when they are
      the same tree up to the order their listings come in. */
  lemma StreamIdentifiesTree(n1: Node, n2: Node, p: Path)
    requires Bounded(n1) && Bounded(n2) && NodeStream(n1, p).Ok?
    ensures NodeStream(n1, p) == NodeStream(n2, p) <==> Canon(n1) == Canon(n2)
  {
    BoundedWellFormed(n1);
    BoundedWellFormed(n2);
    CanonStream(n1, p);
    CanonStream(n2, p);
    if NodeStream(n1, p) == NodeStream(n2, p) {
      CanonCanonical(n1);
      CanonCanonical(n2);
      StreamDeterminesTree(Canon(n1), p, Canon(n2), p);
    }
  }

  // ---- a whole dependency list ----

  /** Every dependency that exists is a bounded tree. */
  ghost predicate BoundedDependencies(fs: Node, paths: seq<Path>)
  {
    forall p | p in paths && Resolve(fs, p).Some? :: Bounded(Resolve(fs, p).value)
  }

  /** The dependency p resolves on both filesystems, to the same tree up to
      listing order. */
  ghost predicate SameTreeAt(fs1: Node, fs2: Node, p: Path)
  {
    Resolve(fs1, p).Some? && Resolve(fs2, p).Some? && Canon(Resolve(fs1, p).value) == Canon(Resolve(fs2, p).value)
  }

  /** A dependency that hashes hashes like the canonical form of its tree. */
  lemma DependencyNode(fs: Node, paths: seq<Path>, p: Path)
    requires BoundedDependencies(fs, paths) && p in paths && PathStream(fs, p).Ok?
    ensures Resolve(fs, p).Some? && Canonical(Canon(Resolve(fs, p).value))
    ensures NodeStream(Canon(Resolve(fs, p).value), p) == PathStream(fs, p)
  {
    var n := Resolve(fs, p).value;
    BoundedWellFormed(n);
    CanonCanonical(n);
    CanonStream(n, p);
  }

  lemma BoundedDependenciesTail(fs: Node, paths: seq<Path>)
    requires paths != [] && BoundedDependencies(fs, paths)
    ensures BoundedDependencies(fs, paths[1..])
  {
    forall p | p in paths[1..]
      ensures p in paths
    {
    }
  }

  /** The first dependency of two agreeing streams is the same tree up to
      listing order, and the rest of the streams agree. */
  lemma FirstDependencyInjective(fs1: Node, fs2: Node, paths: seq<Path>, r1: seq<byte>, r2: seq<byte>)
    requires paths != []
    requires BoundedDependencies(fs1, paths) && BoundedDependencies(fs2, paths)
    requires FilesStream(fs1, paths).Ok? && FilesStream(fs2, paths).Ok?
    requires FilesStream(fs1, paths).value + r1 == FilesStream(fs2, paths).value + r2
    ensures SameTreeAt(fs1, fs2, paths[0])
    ensures BoundedDependencies(fs1, paths[1..]) && BoundedDependencies(fs2, paths[1..])
    ensures FilesStream(fs1, paths[1..]).Ok? && FilesStream(fs2, paths[1..]).Ok?
    ensures FilesStream(fs1, paths[1..]).value + r1 == FilesStream(fs2, paths[1..]).value + r2
  {
    hide FilesStream, PathStream, NodeStream, Resolve, Canonical, Canon, BoundedDependencies;
    var p0, rest := paths[0], paths[1..];
    FilesStreamFront(fs1, paths);
    FilesStreamFront(fs2, paths);
    DependencyNode(fs1, paths, p0);
    DependencyNode(fs2, paths, p0);
    BoundedDependenciesTail(fs1, paths);
    BoundedDependenciesTail(fs2, paths);
    var s1, s2 := PathStream(fs1, p0).value, PathStream(fs2, p0).value;
    var t1, t2 := FilesStream(fs1, rest).value, FilesStream(fs2, rest).value;
    assert (s1 + t1) + r1 == s1 + (t1 + r1) && (s2 + t2) + r2 == s2 + (t2 + r2);
    NodeStreamPrefixInjective(Canon(Resolve(fs1, p0).value), p0, t1 + r1, Canon(Resolve(fs2, p0).value), p0, t2 + r2);
  }

  /** The stream of a dependency list, followed by anything, determines
      every dependency's tree up to listing order, and what follows. */
  lemma {:induction false} FilesStreamPrefixInjective(fs1: Node, fs2: Node, paths: seq<Path>, r1: seq<byte>, r2: seq<byte>)
    requires BoundedDependencies(fs1, paths) && BoundedDependencies(fs2, paths)
    requires FilesStream(fs1, paths).Ok? && FilesStream(fs2, paths).Ok?
    requires FilesStream(fs1, paths).value + r1 == FilesStream(fs2, paths).value + r2
    ensures r1 == r2
    ensures forall p | p in paths :: SameTreeAt(fs1, fs2, p)
    decreases |paths|
  {
    if paths == [] {
      assert [] + r1 == r1 && [] + r2 == r2;
    } else {
      FirstDependencyInjective(fs1, fs2, paths, r1, r2);
      hide FilesStream, SameTreeAt, BoundedDependencies;
      FilesStreamPrefixInjective(fs1, fs2, paths[1..], r1, r2);
      assert forall p | p in paths :: p == paths[0] || p in paths[1..];
    }
  }

  /** A dependency that is the same tree up to listing order on both
      filesystems feeds the same bytes, or fails alike. */
  lemma SamePathStream(fs1: Node, fs2: Node, p: Path)
    requires SameTreeAt(fs1, fs2, p)
    requires WellFormed(Resolve(fs1, p).value) && WellFormed(Resolve(fs2, p).value)
    ensures PathStream(fs1, p) == PathStream(fs2, p)
  {
    CanonStream(Resolve(fs1, p).value, p);
    CanonStream(Resolve(fs2, p).value, p);
  }

  /** Dependencies that are the same well-formed trees up to listing order
      feed hashFiles the same bytes. */
  lemma {:induction false} SameTreesSameStream(fs1: Node, fs2: Node, paths: seq<Path>)
    requires forall p | p in paths ::
      SameTreeAt(fs1, fs2, p) && WellFormed(Resolve(fs1, p).value) && WellFormed(Resolve(fs2, p).value)
    ensures FilesStream(fs1, paths) == FilesStream(fs2, paths)
    decreases |paths|
  {
    if paths != [] {
      hide SameTreeAt, WellFormed, Resolve, PathStream;
      var init, last := paths[..|paths| - 1], paths[|paths| - 1];
      assert forall p | p in init :: p in paths;
      SameTreesSameStream(fs1, fs2, init);
      SamePathStream(fs1, fs2, last);
    }
  }

  /** hashFiles feeds the same bytes for a dependency list on two
      filesystems exactly when every dependency is the same tree on both up
      to listing order: whatever changes a dependency's names, modes, mtimes,
      sizes or structure changes what is hashed, and nothing else does. */
  lemma DependenciesDetermineTrees(fs1: Node, fs2: Node, paths: seq<Path>)
    requires BoundedDependencies(fs1, paths) && BoundedDependencies(fs2, paths)
    requires FilesStream(fs1, paths).Ok?
    ensures FilesStream(fs1, paths) == FilesStream(fs2, paths) <==> forall p | p in paths :: SameTreeAt(fs1, fs2, p)
  {
    if FilesStream(fs1, paths) == FilesStream(fs2, paths) {
      FilesStreamPrefixInjective(fs1, fs2, paths, [], []);
    } else if forall p | p in paths :: SameTreeAt(fs1, fs2, p) {
      forall p | p in paths
        ensures WellFormed(Resolve(fs1, p).value) && WellFormed(Resolve(fs2, p).value)
      {
        BoundedWellFormed(Resolve(fs1, p).value);
        BoundedWellFormed(Resolve(fs2, p).value);
      }
      SameTreesSameStream(fs1, fs2, paths);
    }
  }
}
