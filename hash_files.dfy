/** hash-files.js: the dependency fingerprint. Every path is folded, in list
    order, into one running hash context; a file contributes its tag, mode,
    mtime and size, a directory its tag, entry count and, for each entry in
    sorted order, the name, a NUL byte and the entry's own contribution. */
module HashFiles {
  import opened Results
  import opened ByteEncoding
  import opened FileTree

  const FILE_TAG: nat := 0
  const DIR_TAG: nat := 1

  /** What makes hashFiles throw: statSync failing on a path, or a path that
      is neither a regular file nor a directory. */
  datatype HashError = StatFailed(path: Path) | UnexpectedFileType(path: Path)

  /** The bytes a regular file contributes. */
  function FileRecord(mode: nat, mtime: nat, size: nat): seq<byte>
  {
    UInt8(FILE_TAG) + UInt16LE(mode) + UInt48LE(mtime) + Float64LE(size)
  }

  /** The bytes updateHash feeds for the entity n found at path p. */
  function NodeStream(n: Node, p: Path): Result<seq<byte>, HashError>
    decreases n, 1
  {
    match n
    case File(mode, mtime, size) => Ok(FileRecord(mode, mtime, size))
    case Dir(entries) =>
      (var names := SortNames(Names(entries));
       match EntriesStream(n, names, p)
       case Err(e) => Err(e)
       case Ok(body) => Ok(UInt8(DIR_TAG) + Float64LE(|names|) + body))
    case Special => Err(UnexpectedFileType(p))
  }

  /** The bytes the listed entries of directory dir (at path p) contribute,
      in the order given. */
  function EntriesStream(dir: Node, names: seq<Name>, p: Path): Result<seq<byte>, HashError>
    requires dir.Dir?
    decreases dir, 0, |names|
  {
    if names == [] then Ok([])
    else
      var name := names[|names| - 1];
      match EntriesStream(dir, names[..|names| - 1], p)
      case Err(e) => Err(e)
      case Ok(prefix) =>
        var i := FindEntry(dir.entries, name);
        if i < 0 then Err(StatFailed(p + [name]))
        else
          match NodeStream(dir.entries[i].node, p + [name])
          case Err(e) => Err(e)
          case Ok(s) => Ok(prefix + name + UInt8(0) + s)
  }

  /** updateHash(hash, p) on filesystem fs. */
  function PathStream(fs: Node, p: Path): Result<seq<byte>, HashError>
  {
    match Resolve(fs, p)
    case None => Err(StatFailed(p))
    case Some(n) => NodeStream(n, p)
  }

  /** The bytes hashFiles feeds for a list of paths: the per-path streams,
      concatenated in list order, or the first path's failure. */
  function FilesStream(fs: Node, paths: seq<Path>): Result<seq<byte>, HashError>
  {
    if paths == [] then Ok([])
    else
      match FilesStream(fs, paths[..|paths| - 1])
      case Err(e) => Err(e)
      case Ok(prefix) =>
        match PathStream(fs, paths[|paths| - 1])
        case Err(e) => Err(e)
        case Ok(s) => Ok(prefix + s)
  }

  /** hashFiles(paths): the digest of the whole stream, or the error. */
  function FilesDigest(fs: Node, paths: seq<Path>, md4: seq<byte> -> string): Result<string, HashError>
  {
    match FilesStream(fs, paths)
    case Err(e) => Err(e)
    case Ok(s) => Ok(md4(s))
  }

  /** The Hash class: a crypto hash context, modelled by the bytes fed to it
      so far, since an MD4 context is determined by its input. */
  class Hash {
    var fed: seq<byte>

    constructor ()
      ensures fed == []
    {
      fed := [];
    }

    method UpdateBuffer(buf: seq<byte>)
      modifies this
      ensures fed == old(fed) + buf
    {
      fed := fed + buf;
    }

    method UpdateString(s: Name)
      modifies this
      ensures fed == old(fed) + s
    {
      UpdateBuffer(s);
    }

    method UpdateNumber(n: nat)
      modifies this
      ensures fed == old(fed) + Float64LE(n)
    {
      UpdateBuffer(Float64LE(n));
    }

    method UpdateUInt48(n: nat)
      modifies this
      ensures fed == old(fed) + UInt48LE(n)
    {
      UpdateBuffer(UInt48LE(n));
    }

    method UpdateUInt32(n: nat)
      modifies this
      ensures fed == old(fed) + UInt32LE(n)
    {
      UpdateBuffer(UInt32LE(n));
    }

    method UpdateUInt16(n: nat)
      modifies this
      ensures fed == old(fed) + UInt16LE(n)
    {
      UpdateBuffer(UInt16LE(n));
    }

    method UpdateUInt8(n: nat)
      modifies this
      ensures fed == old(fed) + UInt8(n)
    {
      UpdateBuffer(UInt8(n));
    }

    /** digest("hex"), with the MD4 function given as md4. */
    method Digest(md4: seq<byte> -> string) returns (d: string)
      ensures d == md4(fed)
    {
      d := md4(fed);
    }
  }

  /** Once a prefix of the entries fails, the whole listing fails the same way. */
  lemma {:induction false} EntriesStreamPrefixFails(dir: Node, names: seq<Name>, k: nat, p: Path)
    requires dir.Dir? && k <= |names| && EntriesStream(dir, names[..k], p).Err?
    ensures EntriesStream(dir, names, p) == EntriesStream(dir, names[..k], p)
    decreases |names| - k
  {
    if k < |names| {
      assert names[..k + 1][..k] == names[..k];
      EntriesStreamPrefixFails(dir, names, k + 1, p);
    } else {
      assert names[..k] == names;
    }
  }

  lemma {:induction false} FilesStreamPrefixFails(fs: Node, paths: seq<Path>, k: nat, e: HashError)
    requires k <= |paths| && FilesStream(fs, paths[..k]) == Err(e)
    ensures FilesStream(fs, paths) == Err(e)
    decreases |paths| - k
  {
    if k < |paths| {
      assert paths[..k + 1][..k] == paths[..k];
      FilesStreamPrefixFails(fs, paths, k + 1, e);
    } else {
      assert paths[..k] == paths;
    }
  }

  /** One more entry of a listing: its name, a NUL byte and the stream of the
      path that names it. */
  lemma EntriesStreamExtend(fs: Node, path: Path, n: Node, names: seq<Name>, i: nat)
    requires Resolve(fs, path) == Some(n) && n.Dir? && i < |names|
    requires EntriesStream(n, names[..i], path).Ok?
    ensures EntriesStream(n, names[..i + 1], path) ==
      match PathStream(fs, path + [names[i]])
      case Err(e) => Err(e)
      case Ok(s) => Ok(EntriesStream(n, names[..i], path).value + names[i] + UInt8(0) + s)
  {
    assert names[..i + 1][..i] == names[..i];
    ResolveChild(fs, path, names[i]);
  }

  lemma Regroup(a: seq<byte>, b: seq<byte>, c: seq<byte>, d: seq<byte>, e: seq<byte>)
    ensures a + b + c + d + e == a + (b + c + d + e)
  {
  }

  lemma Regroup3(a: seq<byte>, b: seq<byte>, c: seq<byte>, d: seq<byte>)
    ensures a + b + c + d == a + (b + c + d)
  {
  }

  /** updateHash: feeds exactly PathStream(fs, path) into h, or fails as it does. */
  method UpdateHash(h: Hash, fs: Node, path: Path) returns (r: Result<(), HashError>)
    modifies h
    ensures r.Err? <==> PathStream(fs, path).Err?
    ensures r.Err? ==> r.error == PathStream(fs, path).error
    ensures r.Ok? ==> h.fed == old(h.fed) + PathStream(fs, path).value
    decreases Height(fs) - |path|, 3
  {
    var stats := Resolve(fs, path);
    if stats.None? {
      return Err(StatFailed(path));
    }
    var n := stats.value;
    if n.Dir? {
      ResolveHeight(fs, path, n);
      r := UpdateDirectory(h, fs, path, n);
    } else if n.File? {
      UpdateFile(h, n.mode, n.mtime, n.size);
      return Ok(());
    } else {
      return Err(UnexpectedFileType(path));
    }
  }

  /** The regular-file branch of updateHash: tag, mode, mtime and size. */
  method UpdateFile(h: Hash, mode: nat, mtime: nat, size: nat)
    modifies h
    ensures h.fed == old(h.fed) + FileRecord(mode, mtime, size)
  {
    h.UpdateUInt8(FILE_TAG);
    h.UpdateUInt16(mode);
    h.UpdateUInt48(mtime);
    h.UpdateNumber(size);
    Regroup3(old(h.fed) + UInt8(FILE_TAG), UInt16LE(mode), UInt48LE(mtime), Float64LE(size));
  }

  /** The directory branch of updateHash, for the directory n at path: the
      tag, the entry count, then every entry in sorted order. */
  method UpdateDirectory(h: Hash, fs: Node, path: Path, n: Node) returns (r: Result<(), HashError>)
    requires Resolve(fs, path) == Some(n) && n.Dir?
    requires |path| + Height(n) <= Height(fs)
    modifies h
    ensures r.Err? <==> NodeStream(n, path).Err?
    ensures r.Err? ==> r.error == NodeStream(n, path).error
    ensures r.Ok? ==> h.fed == old(h.fed) + NodeStream(n, path).value
    decreases Height(fs) - |path|, 2
  {
    h.UpdateUInt8(DIR_TAG);
    var entries := SortNames(Names(n.entries));
    h.UpdateNumber(|entries|);
    ghost var head := h.fed;
    r := UpdateEntries(h, fs, path, n, entries);
    if r.Ok? {
      Regroup3(old(h.fed), UInt8(DIR_TAG), Float64LE(|entries|), EntriesStream(n, entries, path).value);
    }
  }

  /** updateHash's loop over the sorted names of directory n. */
  method UpdateEntries(h: Hash, fs: Node, path: Path, n: Node, entries: seq<Name>) returns (r: Result<(), HashError>)
    requires Resolve(fs, path) == Some(n) && n.Dir?
    requires |path| + Height(n) <= Height(fs)
    modifies h
    ensures r.Err? <==> EntriesStream(n, entries, path).Err?
    ensures r.Err? ==> r.error == EntriesStream(n, entries, path).error
    ensures r.Ok? ==> h.fed == old(h.fed) + EntriesStream(n, entries, path).value
    decreases Height(fs) - |path|, 1
  {
    hide NodeStream;
    ghost var start := h.fed;
    var i := 0;
    while i < |entries|
      invariant 0 <= i <= |entries|
      invariant EntriesStream(n, entries[..i], path).Ok?
      invariant h.fed == start + EntriesStream(n, entries[..i], path).value
    {
      r := UpdateEntry(h, fs, path, n, entries, i, start);
      if r.Err? {
        EntriesStreamPrefixFails(n, entries, i + 1, path);
        return;
      }
      i := i + 1;
    }
    assert entries[..i] == entries;
    return Ok(());
  }

  /** One pass of updateHash's loop over a directory: the name, a NUL byte,
      then the recursive call on the entry's full path. */
  method UpdateEntry(h: Hash, fs: Node, path: Path, n: Node, entries: seq<Name>, i: nat, ghost start: seq<byte>)
      returns (r: Result<(), HashError>)
    requires Resolve(fs, path) == Some(n) && n.Dir?
    requires |path| + Height(n) <= Height(fs)
    requires i < |entries|
    requires EntriesStream(n, entries[..i], path).Ok?
    requires h.fed == start + EntriesStream(n, entries[..i], path).value
    modifies h
    ensures r.Err? <==> EntriesStream(n, entries[..i + 1], path).Err?
    ensures r.Err? ==> r.error == EntriesStream(n, entries[..i + 1], path).error
    ensures r.Ok? ==> h.fed == start + EntriesStream(n, entries[..i + 1], path).value
    decreases Height(fs) - |path|, 0
  {
    ghost var done := EntriesStream(n, entries[..i], path).value;
    h.UpdateString(entries[i]);
    h.UpdateUInt8(0);
    ghost var named := h.fed;
    EntriesStreamExtend(fs, path, n, entries, i);
    ResolveChild(fs, path, entries[i]);
    var k := FindEntry(n.entries, entries[i]);
    if k >= 0 {
      ChildLower(n, |n.entries|, k);
    }
    r := UpdateHash(h, fs, path + [entries[i]]);
    if r.Ok? {
      ghost var s := PathStream(fs, path + [entries[i]]).value;
      assert named == start + done + entries[i] + UInt8(0);
      assert h.fed == named + s;
      Regroup(start, done, entries[i], UInt8(0), s);
    }
  }

  lemma FilesStreamExtend(fs: Node, paths: seq<Path>, i: nat, acc: seq<byte>)
    requires i < |paths| && FilesStream(fs, paths[..i]) == Ok(acc)
    ensures FilesStream(fs, paths[..i + 1]) ==
      match PathStream(fs, paths[i])
      case Err(e) => Err(e)
      case Ok(s) => Ok(acc + s)
  {
    assert paths[..i + 1][..i] == paths[..i];
  }

  /** hashFiles' loop: every path, in list order, into the same hash. */
  method UpdatePaths(h: Hash, fs: Node, fullPaths: seq<Path>) returns (r: Result<(), HashError>)
    modifies h
    ensures r.Err? <==> FilesStream(fs, fullPaths).Err?
    ensures r.Err? ==> r.error == FilesStream(fs, fullPaths).error
    ensures r.Ok? ==> h.fed == old(h.fed) + FilesStream(fs, fullPaths).value
  {
    hide PathStream;
    ghost var start := h.fed;
    ghost var acc: seq<byte> := [];
    var i := 0;
    while i < |fullPaths|
      invariant 0 <= i <= |fullPaths|
      invariant FilesStream(fs, fullPaths[..i]) == Ok(acc)
      invariant h.fed == start + acc
    {
      FilesStreamExtend(fs, fullPaths, i, acc);
      r := UpdateHash(h, fs, fullPaths[i]);
      if r.Err? {
        FilesStreamPrefixFails(fs, fullPaths, i + 1, r.error);
        return;
      }
      acc := acc + PathStream(fs, fullPaths[i]).value;
      i := i + 1;
    }
    assert fullPaths[..i] == fullPaths;
    return Ok(());
  }

  /** hashFiles: a fresh Hash fed with every path, then its digest. */
  method HashFilesOf(fs: Node, fullPaths: seq<Path>, md4: seq<byte> -> string) returns (r: Result<string, HashError>)
    ensures r == FilesDigest(fs, fullPaths, md4)
  {
    hide FilesStream;
    var hash := new Hash();
    var u := UpdatePaths(hash, fs, fullPaths);
    if u.Err? {
      return Err(u.error);
    }
    assert hash.fed == FilesStream(fs, fullPaths).value;
    var d := hash.Digest(md4);
    return Ok(d);
  }
}
