/** The filesystem as the hasher sees it through fs.statSync and
    fs.readdirSync: an immutable tree whose directories list their entries in
    whatever order readdirSync returns them. */
module FileTree {
  import opened Results
  import opened ByteEncoding

  /** An entry name, as the bytes new Buffer(name) produces. */
  type Name = seq<byte>

  /** A full path, as the sequence of names joined by path.sep. */
  type Path = seq<Name>

  datatype Entry = Entry(name: Name, node: Node)

  /** What statSync reports: a regular file with its mode, modification time
      in milliseconds and size; a directory; or anything else (socket, FIFO,
      device). */
  datatype Node =
    | File(mode: nat, mtime: nat, size: nat)
    | Dir(entries: seq<Entry>)
    | Special

  function Names(entries: seq<Entry>): (r: seq<Name>)
    ensures |r| == |entries|
    ensures forall i :: 0 <= i < |entries| ==> r[i] == entries[i].name
  {
    if entries == [] then [] else [entries[0].name] + Names(entries[1..])
  }

  /** The position of the first entry called name, or -1. */
  function FindEntry(entries: seq<Entry>, name: Name): (i: int)
    ensures -1 <= i < |entries|
    ensures i >= 0 ==> entries[i].name == name && forall j :: 0 <= j < i ==> entries[j].name != name
    ensures i < 0 <==> name !in Names(entries)
  {
    if entries == [] then -1
    else if entries[0].name == name then 0
    else
      var j := FindEntry(entries[1..], name);
      if j < 0 then -1 else j + 1
  }

  /** statSync: the node a path leads to from the root, if there is one. */
  function Resolve(root: Node, path: Path): Option<Node>
    decreases |path|
  {
    if path == [] then Some(root)
    else match root
      case Dir(entries) =>
        var i := FindEntry(entries, path[0]);
        if i < 0 then None else Resolve(entries[i].node, path[1..])
      case _ => None
  }

  /** Looking up one more name resolves it in the directory the path leads to. */
  lemma {:induction false} ResolveChild(root: Node, path: Path, name: Name)
    ensures Resolve(root, path + [name]) ==
      match Resolve(root, path)
      case Some(Dir(entries)) =>
        var i := FindEntry(entries, name);
        if i < 0 then None else Some(entries[i].node)
      case _ => None
    decreases |path|
  {
    if path == [] {
      assert ([] + [name])[1..] == [];
    } else {
      assert (path + [name])[0] == path[0];
      assert (path + [name])[1..] == path[1..] + [name];
      match root
      case Dir(entries) =>
        var i := FindEntry(entries, path[0]);
        if i >= 0 {
          ResolveChild(entries[i].node, path[1..], name);
        }
      case _ =>
    }
  }

  function Height(n: Node): nat
    decreases n, 1
  {
    match n
    case Dir(entries) => 1 + ChildrenHeight(n, |entries|)
    case _ => 0
  }

  /** The greatest height among the first k entries of a directory. */
  function ChildrenHeight(dir: Node, k: nat): nat
    requires dir.Dir? && k <= |dir.entries|
    decreases dir, 0, k
  {
    if k == 0 then 0
    else
      var h := Height(dir.entries[k - 1].node);
      var rest := ChildrenHeight(dir, k - 1);
      if h < rest then rest else h
  }

  lemma {:induction false} ChildLower(dir: Node, k: nat, i: nat)
    requires dir.Dir? && i < k <= |dir.entries|
    ensures Height(dir.entries[i].node) <= ChildrenHeight(dir, k)
    decreases k
  {
    if i < k - 1 {
      ChildLower(dir, k - 1, i);
    }
  }

  /** A path that resolves is no longer than the tree is high above its target. */
  lemma {:induction false} ResolveHeight(root: Node, path: Path, n: Node)
    requires Resolve(root, path) == Some(n)
    ensures |path| + Height(n) <= Height(root)
    decreases |path|
  {
    if path != [] {
      var i := FindEntry(root.entries, path[0]);
      ResolveHeight(root.entries[i].node, path[1..], n);
      ChildLower(root, |root.entries|, i);
    }
  }

  // ---- the order Array.prototype.sort puts names in ----

  /** Lexicographic order on names, a proper prefix first. */
  predicate NameLe(a: Name, b: Name)
    decreases |a|
  {
    a == [] || (b != [] && (a[0] < b[0] || (a[0] == b[0] && NameLe(a[1..], b[1..]))))
  }

  lemma NameLeTotal(a: Name, b: Name)
    ensures NameLe(a, b) || NameLe(b, a)
    decreases |a|
  {
    if a != [] && b != [] && a[0] == b[0] {
      NameLeTotal(a[1..], b[1..]);
    }
  }

  lemma NameLeReflexive(a: Name)
    ensures NameLe(a, a)
    decreases |a|
  {
    if a != [] {
      NameLeReflexive(a[1..]);
    }
  }

  lemma NameLeAntisymmetric(a: Name, b: Name)
    requires NameLe(a, b) && NameLe(b, a)
    ensures a == b
    decreases |a|
  {
    if a != [] {
      NameLeAntisymmetric(a[1..], b[1..]);
      assert a == [a[0]] + a[1..] && b == [b[0]] + b[1..];
    }
  }

  lemma NameLeTransitive(a: Name, b: Name, c: Name)
    requires NameLe(a, b) && NameLe(b, c)
    ensures NameLe(a, c)
    decreases |a|
  {
    if a != [] && a[0] == b[0] && b[0] == c[0] {
      NameLeTransitive(a[1..], b[1..], c[1..]);
    }
  }

  ghost predicate SortedNames(s: seq<Name>)
  {
    forall i, j :: 0 <= i < j < |s| ==> NameLe(s[i], s[j])
  }

  function Insert(x: Name, s: seq<Name>): (r: seq<Name>)
    ensures multiset(r) == multiset(s) + multiset{x}
    ensures SortedNames(s) ==> SortedNames(r)
  {
    if s == [] then [x]
    else if NameLe(x, s[0]) then
      assert SortedNames(s) ==> SortedNames([x] + s) by {
        if SortedNames(s) { InsertFrontSorted(x, s); }
      }
      [x] + s
    else
      var tail := Insert(x, s[1..]);
      assert s == [s[0]] + s[1..];
      assert SortedNames(s) ==> SortedNames([s[0]] + tail) by {
        if SortedNames(s) { InsertBehindSorted(x, s, tail); }
      }
      [s[0]] + tail
  }

  lemma PrependSorted(x: Name, s: seq<Name>)
    requires SortedNames(s)
    requires forall y | y in s :: NameLe(x, y)
    ensures SortedNames([x] + s)
  {
    forall i, j | 0 <= i < j < |s| + 1 ensures NameLe(([x] + s)[i], ([x] + s)[j]) {
      if i == 0 { assert s[j - 1] in s; }
    }
  }

  lemma InsertFrontSorted(x: Name, s: seq<Name>)
    requires s != [] && NameLe(x, s[0]) && SortedNames(s)
    ensures SortedNames([x] + s)
  {
    forall y | y in s ensures NameLe(x, y) {
      var k :| 0 <= k < |s| && s[k] == y;
      if k > 0 { NameLeTransitive(x, s[0], y); }
    }
    PrependSorted(x, s);
  }

  lemma InsertBehindSorted(x: Name, s: seq<Name>, tail: seq<Name>)
    requires s != [] && !NameLe(x, s[0]) && SortedNames(s) && SortedNames(tail)
    requires multiset(tail) == multiset(s[1..]) + multiset{x}
    ensures SortedNames([s[0]] + tail)
  {
    NameLeTotal(x, s[0]);
    forall y | y in tail ensures NameLe(s[0], y) {
      assert y in multiset(tail);
      if y != x {
        assert y in multiset(s[1..]);
        var k :| 0 <= k < |s[1..]| && s[1..][k] == y;
        assert s[k + 1] == y;
      }
    }
    PrependSorted(s[0], tail);
  }

  /** readdirSync(...).sort(): the listing's names in ascending order. */
  function SortNames(s: seq<Name>): (r: seq<Name>)
    ensures multiset(r) == multiset(s) && |r| == |s|
    ensures SortedNames(r)
  {
    if s == [] then []
    else
      assert s == [s[0]] + s[1..];
      Insert(s[0], SortNames(s[1..]))
  }

  lemma SortedHeadLeast(a: seq<Name>, x: Name)
    requires SortedNames(a) && x in a
    ensures NameLe(a[0], x)
  {
    var i :| 0 <= i < |a| && a[i] == x;
    if i == 0 {
      NameLeReflexive(x);
    }
  }

  lemma SortedTail(a: seq<Name>)
    requires SortedNames(a) && a != []
    ensures SortedNames(a[1..])
  {
    forall i, j | 0 <= i < j < |a| - 1 ensures NameLe(a[1..][i], a[1..][j]) {
      assert a[1..][i] == a[i + 1] && a[1..][j] == a[j + 1];
    }
  }

  /** Two ascending sequences with the same names are the same sequence. */
  lemma {:induction false} SortedUnique(a: seq<Name>, b: seq<Name>)
    requires SortedNames(a) && SortedNames(b) && multiset(a) == multiset(b)
    ensures a == b
    decreases |a|
  {
    if a != [] {
      assert |b| == |a| by { assert |multiset(a)| == |multiset(b)|; }
      assert a[0] in multiset(b) && b[0] in multiset(a);
      SortedHeadLeast(a, b[0]);
      SortedHeadLeast(b, a[0]);
      NameLeAntisymmetric(a[0], b[0]);
      SameTails(a, b);
      SortedTail(a);
      SortedTail(b);
      SortedUnique(a[1..], b[1..]);
      assert a == [a[0]] + a[1..] && b == [b[0]] + b[1..];
    }
  }

  lemma SameTails<T>(a: seq<T>, b: seq<T>)
    requires a != [] && b != [] && a[0] == b[0] && multiset(a) == multiset(b)
    ensures multiset(a[1..]) == multiset(b[1..])
  {
    assert a == [a[0]] + a[1..] && b == [b[0]] + b[1..];
    assert multiset(a[1..]) == multiset(a) - multiset{a[0]};
    assert multiset(b[1..]) == multiset(b) - multiset{b[0]};
  }
}
