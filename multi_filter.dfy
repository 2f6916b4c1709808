/** index.js: the MultiFilter plugin. buildAndCache walks a list of tokens
    (input file names) in order and, for each, either reuses the cached output
    directory when the token's dependencies still hash to the recorded
    fingerprint, or allocates a fresh numbered directory and asks the builder
    to fill it. After the first failed build it only carries old records
    forward. At the end it installs the new cache, runs the purge as written
    (a for...in loop that removes the old list's index keys, not the stale
    directories it was meant to remove; see Findings in README.md), and
    either rethrows the first error or merges. */
module MultiFilterPlugin {
  import opened Results
  import opened ByteEncoding
  import opened FileTree
  import opened HashFiles

  // ---- _verifyTokens ----

  /** A token as buildAndCache receives it: a string, or any other
      JavaScript value, kept as the text it converts to in a message. */
  datatype TokenValue = Str(s: string) | NonString(shown: string)

  /** What _verifyTokens throws. */
  datatype TokenError = ExpectedString(shown: string) | DuplicateInputFile(token: string)

  predicate DistinctStrings(s: seq<string>)
  {
    forall i, j :: 0 <= i < j < |s| ==> s[i] != s[j]
  }

  /** _verifyTokens as a function of the list: the tokens as strings, or the
      error thrown at the first token that is not a string or repeats an
      earlier one. */
  function CheckTokens(tokens: seq<TokenValue>): (r: Result<seq<string>, TokenError>)
    ensures r.Ok? ==> |r.value| == |tokens| && forall i :: 0 <= i < |tokens| ==> tokens[i] == Str(r.value[i])
    ensures r.Ok? ==> DistinctStrings(r.value)
  {
    if tokens == [] then Ok([])
    else
      match CheckTokens(tokens[..|tokens| - 1])
      case Err(e) => Err(e)
      case Ok(prefix) =>
        match tokens[|tokens| - 1]
        case NonString(shown) => Err(ExpectedString(shown))
        case Str(s) => if s in prefix then Err(DuplicateInputFile(s)) else Ok(prefix + [s])
  }

  lemma {:induction false} CheckTokensPrefixFails(tokens: seq<TokenValue>, k: nat)
    requires k <= |tokens| && CheckTokens(tokens[..k]).Err?
    ensures CheckTokens(tokens) == CheckTokens(tokens[..k])
    decreases |tokens| - k
  {
    if k < |tokens| {
      assert tokens[..k + 1][..k] == tokens[..k];
      CheckTokensPrefixFails(tokens, k + 1);
    } else {
      assert tokens[..k] == tokens;
    }
  }

  /** _verifyTokens: one pass over the tokens with a set of those seen. */
  method VerifyTokens(tokens: seq<TokenValue>) returns (r: Result<seq<string>, TokenError>)
    ensures r == CheckTokens(tokens)
  {
    var tokenSet: set<string> := {};
    var strings: seq<string> := [];
    for i := 0 to |tokens|
      invariant CheckTokens(tokens[..i]) == Ok(strings)
      invariant tokenSet == set s | s in strings
    {
      assert tokens[..i + 1][..i] == tokens[..i];
      match tokens[i]
      case NonString(shown) =>
        CheckTokensPrefixFails(tokens, i + 1);
        return Err(ExpectedString(shown));
      case Str(token) =>
        if token in tokenSet {
          CheckTokensPrefixFails(tokens, i + 1);
          return Err(DuplicateInputFile(token));
        }
        tokenSet := tokenSet + {token};
        strings := strings + [token];
    }
    assert tokens[..|tokens|] == tokens;
    return Ok(strings);
  }

  // ---- _makeCacheDir ----

  function Digit(d: nat): (c: char)
    requires d < 10
    ensures '0' <= c <= '9'
  {
    ('0' as int + d) as char
  }

  /** The decimal text of a counter, as String(n) gives it. */
  function DecimalString(n: nat): (r: string)
    ensures |r| >= 1
    ensures forall i :: 0 <= i < |r| ==> '0' <= r[i] <= '9'
    decreases n
  {
    if n < 10 then [Digit(n)] else DecimalString(n / 10) + [Digit(n % 10)]
  }

  lemma {:induction false} DecimalStringInjective(a: nat, b: nat)
    requires DecimalString(a) == DecimalString(b)
    ensures a == b
    decreases a
  {
    var s := DecimalString(a);
    if a >= 10 && b >= 10 {
      assert DecimalString(a / 10) == s[..|s| - 1] == DecimalString(b / 10);
      DecimalStringInjective(a / 10, b / 10);
      assert Digit(a % 10) == s[|s| - 1] == Digit(b % 10);
    } else if a < 10 && b < 10 {
      assert Digit(a) == s[0] == Digit(b);
    } else {
      // one text has a single digit, the other at least two
      assert false;
    }
  }

  /** The directory _makeCacheDir creates for counter value k:
      cachePath + path.sep + k. */
  function CacheDir(cachePath: string, k: nat): string
  {
    cachePath + "/" + DecimalString(k)
  }

  /** Distinct counter values give distinct directories. */
  lemma CacheDirInjective(cachePath: string, a: nat, b: nat)
    requires CacheDir(cachePath, a) == CacheDir(cachePath, b)
    ensures a == b
  {
    var n := |cachePath + "/"|;
    assert DecimalString(a) == CacheDir(cachePath, a)[n..];
    assert DecimalString(b) == CacheDir(cachePath, b)[n..];
    DecimalStringInjective(a, b);
  }

  /** The directories an instance has created once its counter reached n. */
  function CacheDirs(cachePath: string, n: nat): seq<string>
  {
    seq(n, k requires 0 <= k => CacheDir(cachePath, k))
  }

  /** The next directory is none of those made before it. */
  lemma CacheDirFresh(cachePath: string, n: nat)
    ensures CacheDir(cachePath, n) !in CacheDirs(cachePath, n)
  {
    if CacheDir(cachePath, n) in CacheDirs(cachePath, n) {
      var k :| 0 <= k < n && CacheDirs(cachePath, n)[k] == CacheDir(cachePath, n);
      CacheDirInjective(cachePath, k, n);
    }
  }

  // ---- _purgeOutputDirectories ----

  /** The directories the purge removes: each element of oldDirs that newDirs
      does not hold, in order. */
  function PurgeTargets(oldDirs: seq<string>, newDirs: seq<string>): seq<string>
  {
    if oldDirs == [] then []
    else
      var last := oldDirs[|oldDirs| - 1];
      PurgeTargets(oldDirs[..|oldDirs| - 1], newDirs) + (if last in newDirs then [] else [last])
  }

  /** What for...in visits on an array of length n: its index keys "0", "1", ... */
  function ForInKeys(n: nat): seq<string>
  {
    seq(n, i requires 0 <= i => DecimalString(i))
  }

  /** _purgeOutputDirectories as written: for...in over the old array visits
      its index keys, so the keys are what is compared and removed. */
  method PurgeOutputDirectoriesAsWritten(oldOutputDirectories: seq<string>, newOutputDirectories: seq<string>)
      returns (removed: seq<string>)
    ensures removed == PurgeTargets(ForInKeys(|oldOutputDirectories|), newOutputDirectories)
  {
    var newSet := set d | d in newOutputDirectories;
    removed := [];
    for i := 0 to |oldOutputDirectories|
      invariant removed == PurgeTargets(ForInKeys(i), newOutputDirectories)
    {
      var outputDirectoryPath := DecimalString(i);
      assert ForInKeys(i + 1)[..i] == ForInKeys(i);
      if outputDirectoryPath !in newSet {
        removed := removed + [outputDirectoryPath];
      }
    }
  }

  /** _purgeOutputDirectories as its comments describe it: every old
      directory the new list no longer holds is removed. */
  method PurgeOutputDirectories(oldOutputDirectories: seq<string>, newOutputDirectories: seq<string>)
      returns (removed: seq<string>)
    ensures removed == PurgeTargets(oldOutputDirectories, newOutputDirectories)
  {
    var newSet := set d | d in newOutputDirectories;
    removed := [];
    for i := 0 to |oldOutputDirectories|
      invariant removed == PurgeTargets(oldOutputDirectories[..i], newOutputDirectories)
    {
      var outputDirectoryPath := oldOutputDirectories[i];
      assert oldOutputDirectories[..i + 1][..i] == oldOutputDirectories[..i];
      if outputDirectoryPath !in newSet {
        removed := removed + [outputDirectoryPath];
      }
    }
    assert oldOutputDirectories[..|oldOutputDirectories|] == oldOutputDirectories;
  }

  // ---- one pass of buildAndCache ----

  /** A cache record: where the token's output lives, which paths it was
      built from, and their fingerprint at the time. */
  datatype CacheItem = CacheItem(outputDirectoryPath: string, dependencies: seq<Path>, statHash: string)

  /** What the builder callback's promise resolves to: null or an object
      without dependencies, dependencies that are not an array, or a list. */
  datatype BuildOutput = NoDependencies | NotAnArray(shown: string) | DependencyList(paths: seq<Path>)

  datatype BuilderResult = Threw(error: string) | Returned(output: BuildOutput)

  /** The error a failed build records, and the pass rethrows. */
  datatype BuildError =
    | BuilderThrew(error: string)
    | MissingDependencies
    | ExpectedArray(shown: string)
    | EmptyDependencies
    | HashFailed(cause: HashError)

  /** What the pass depends on but does not compute: the filesystem the
      dependencies are stat'ed in, the MD4 hex digest, the builder callback,
      and whether mkdirSync succeeds on a path. */
  datatype Oracles = Oracles(
    fs: Node,
    md4: seq<byte> -> string,
    builder: (string, string) -> BuilderResult,
    mkdirOk: string -> bool)

  /** The record's dependencies still hash to the recorded fingerprint; a
      rehash that throws is no hit. */
  predicate IsHit(o: Oracles, item: CacheItem)
  {
    FilesDigest(o.fs, item.dependencies, o.md4) == Ok(item.statHash)
  }

  /** The builder call and the checks on what it returns, for token and the
      fresh directory dir: a record, or the error the catch stores. */
  function BuildRecord(o: Oracles, token: string, dir: string): (r: Result<CacheItem, BuildError>)
    ensures r.Ok? ==> r.value.outputDirectoryPath == dir && r.value.dependencies != [] && IsHit(o, r.value)
    ensures r.Ok? ==> o.builder(token, dir) == Returned(DependencyList(r.value.dependencies))
  {
    match o.builder(token, dir)
    case Threw(e) => Err(BuilderThrew(e))
    case Returned(NoDependencies) => Err(MissingDependencies)
    case Returned(NotAnArray(shown)) => Err(ExpectedArray(shown))
    case Returned(DependencyList(paths)) =>
      if paths == [] then Err(EmptyDependencies)
      else
        match FilesDigest(o.fs, paths, o.md4)
        case Err(e) => Err(HashFailed(e))
        case Ok(h) => Ok(CacheItem(dir, paths, h))
  }

  /** The state of a pass: the closure's newCache, newOutputDirectories and
      buildError, this._stats, the counter, and the path whose mkdirSync
      threw, which rejects the series and ends the pass. */
  datatype Pass = Pass(
    newCache: map<string, CacheItem>,
    newOutputDirectories: seq<string>,
    cacheHits: seq<string>,
    cacheMisses: seq<string>,
    counter: nat,
    buildError: Option<BuildError>,
    aborted: Option<string>)

  function Start(counter: nat): Pass
  {
    Pass(map[], [], [], [], counter, None, None)
  }

  /** The mapSeries callback on one token. */
  function Step(o: Oracles, cachePath: string, oldCache: map<string, CacheItem>, p: Pass, token: string): Pass
  {
    if p.aborted.Some? then p
    else if p.buildError.Some? then
      if token in oldCache then
        p.(newOutputDirectories := p.newOutputDirectories + [oldCache[token].outputDirectoryPath],
           newCache := p.newCache[token := oldCache[token]])
      else p
    else if token in oldCache && IsHit(o, oldCache[token]) then
      p.(newOutputDirectories := p.newOutputDirectories + [oldCache[token].outputDirectoryPath],
         newCache := p.newCache[token := oldCache[token]],
         cacheHits := p.cacheHits + [token])
    else
      var dir := CacheDir(cachePath, p.counter);
      if !o.mkdirOk(dir) then
        p.(cacheMisses := p.cacheMisses + [token], aborted := Some(dir))
      else
        var q := p.(cacheMisses := p.cacheMisses + [token], counter := p.counter + 1,
                    newOutputDirectories := p.newOutputDirectories + [dir]);
        match BuildRecord(o, token, dir)
        case Ok(item) => q.(newCache := q.newCache[token := item])
        case Err(e) => q.(buildError := Some(e))
  }

  /** The pass over tokens, from a counter value and the previous cache. */
  function Run(o: Oracles, cachePath: string, oldCache: map<string, CacheItem>, counter: nat, tokens: seq<string>): Pass
  {
    if tokens == [] then Start(counter)
    else Step(o, cachePath, oldCache, Run(o, cachePath, oldCache, counter, tokens[..|tokens| - 1]), tokens[|tokens| - 1])
  }

  /** Once a prefix of the pass has aborted, the rest of the tokens are not
      visited. */
  lemma {:induction false} RunAbortedStays(o: Oracles, cachePath: string, oldCache: map<string, CacheItem>, counter: nat, tokens: seq<string>, k: nat)
    requires k <= |tokens| && Run(o, cachePath, oldCache, counter, tokens[..k]).aborted.Some?
    ensures Run(o, cachePath, oldCache, counter, tokens) == Run(o, cachePath, oldCache, counter, tokens[..k])
    decreases |tokens| - k
  {
    if k < |tokens| {
      assert tokens[..k + 1][..k] == tokens[..k];
      RunAbortedStays(o, cachePath, oldCache, counter, tokens, k + 1);
    } else {
      assert tokens[..k] == tokens;
    }
  }

  /** The pass over one more token is one more step. */
  lemma RunExtend(o: Oracles, cachePath: string, oldCache: map<string, CacheItem>, counter: nat, tokens: seq<string>, i: nat)
    requires i < |tokens|
    ensures Run(o, cachePath, oldCache, counter, tokens[..i + 1]) ==
      Step(o, cachePath, oldCache, Run(o, cachePath, oldCache, counter, tokens[..i]), tokens[i])
  {
    hide Step;
    assert tokens[..i + 1][..i] == tokens[..i];
  }

  /** How buildAndCache's promise settles. */
  datatype PassOutcome =
    | InvalidTokens(tokenError: TokenError)
    | MkdirFailed(path: string)
    | BuildFailed(error: BuildError)
    | Merged(outputDirectories: seq<string>)

  /** After finally: the mkdirSync error if the series was rejected, else the
      first build error rethrown, else the merge of the new directories. */
  function Outcome(p: Pass): PassOutcome
  {
    if p.aborted.Some? then MkdirFailed(p.aborted.value)
    else if p.buildError.Some? then BuildFailed(p.buildError.value)
    else Merged(p.newOutputDirectories)
  }

  /** The build half of a miss: call the builder, check what it returned,
      and fingerprint its dependencies. */
  method RunBuilder(o: Oracles, token: string, outputDirectoryPath: string) returns (r: Result<CacheItem, BuildError>)
    ensures r == BuildRecord(o, token, outputDirectoryPath)
  {
    var obj := o.builder(token, outputDirectoryPath);
    if obj.Threw? {
      return Err(BuilderThrew(obj.error));
    }
    match obj.output
    case NoDependencies =>
      return Err(MissingDependencies);
    case NotAnArray(shown) =>
      return Err(ExpectedArray(shown));
    case DependencyList(dependencies) =>
      if |dependencies| == 0 {
        return Err(EmptyDependencies);
      }
      var statHash := HashFilesOf(o.fs, dependencies, o.md4);
      if statHash.Err? {
        return Err(HashFailed(statHash.error));
      }
      return Ok(CacheItem(outputDirectoryPath, dependencies, statHash.value));
  }

  /** The plugin instance: the directory counter, the cache and output list
      of the last pass, its statistics, and the directories it has created
      and removed. */
  class MultiFilter {
    const cachePath: string
    var cacheCounter: nat
    var multiFilterCache: map<string, CacheItem>
    var multiFilterOutputDirectories: seq<string>
    var cacheHits: seq<string>
    var cacheMisses: seq<string>
    /** Every path mkdirSync created, in order. */
    var made: seq<string>
    /** Every path rimraf.sync was called on, in order. */
    var removed: seq<string>

    /** Every directory made is a numbered directory below the counter. */
    ghost predicate Valid()
      reads this
    {
      made == CacheDirs(cachePath, cacheCounter)
    }

    constructor (cachePath: string)
      ensures this.cachePath == cachePath && cacheCounter == 0
      ensures multiFilterCache == map[] && multiFilterOutputDirectories == []
      ensures cacheHits == [] && cacheMisses == [] && made == [] && removed == []
      ensures Valid()
    {
      this.cachePath := cachePath;
      cacheCounter := 0;
      multiFilterCache := map[];
      multiFilterOutputDirectories := [];
      cacheHits := [];
      cacheMisses := [];
      made := [];
      removed := [];
    }

    /** _makeCacheDir: create the next numbered directory, or fail as
        mkdirSync does, leaving the counter as it was. */
    method MakeCacheDir(mkdirOk: string -> bool) returns (r: Result<string, string>)
      requires Valid()
      modifies this`cacheCounter, this`made
      ensures Valid()
      ensures r.Ok? <==> mkdirOk(CacheDir(cachePath, old(cacheCounter)))
      ensures r.Ok? ==> r.value == CacheDir(cachePath, old(cacheCounter)) && r.value !in old(made)
      ensures r.Ok? ==> cacheCounter == old(cacheCounter) + 1
      ensures r.Err? ==> r.error == CacheDir(cachePath, old(cacheCounter)) && cacheCounter == old(cacheCounter)
    {
      var p := CacheDir(cachePath, cacheCounter);
      if !mkdirOk(p) {
        return Err(p);
      }
      CacheDirFresh(cachePath, cacheCounter);
      made := made + [p];
      assert CacheDirs(cachePath, cacheCounter + 1) == CacheDirs(cachePath, cacheCounter) + [p];
      cacheCounter := cacheCounter + 1;
      return Ok(p);
    }

    /** The mapSeries callback of buildAndCache on one token, with the
        closure's variables passed in and handed back. */
    method ProcessToken(o: Oracles, oldCache: map<string, CacheItem>, token: string,
                        newCache: map<string, CacheItem>, newOutputDirectories: seq<string>, buildError: Option<BuildError>)
        returns (nc: map<string, CacheItem>, nd: seq<string>, be: Option<BuildError>, aborted: Option<string>)
      requires Valid()
      modifies this`cacheHits, this`cacheMisses, this`cacheCounter, this`made
      ensures Valid()
      ensures Pass(nc, nd, cacheHits, cacheMisses, cacheCounter, be, aborted) ==
        Step(o, cachePath, oldCache,
             Pass(newCache, newOutputDirectories, old(cacheHits), old(cacheMisses), old(cacheCounter), buildError, None), token)
    {
      nc, nd, be, aborted := newCache, newOutputDirectories, buildError, None;
      var cacheItem := if token in oldCache then Some(oldCache[token]) else None;
      if buildError.Some? {
        if cacheItem.Some? {
          nd := nd + [cacheItem.value.outputDirectoryPath];
          nc := nc[token := cacheItem.value];
        }
        return;
      }
      if cacheItem.Some? {
        var currentHash := HashFilesOf(o.fs, cacheItem.value.dependencies, o.md4);
        if currentHash.Ok? && cacheItem.value.statHash == currentHash.value {
          nd := nd + [cacheItem.value.outputDirectoryPath];
          nc := nc[token := cacheItem.value];
          cacheHits := cacheHits + [token];
          return;
        }
      }
      cacheMisses := cacheMisses + [token];
      var outputDirectoryPath := MakeCacheDir(o.mkdirOk);
      if outputDirectoryPath.Err? {
        aborted := Some(outputDirectoryPath.error);
        return;
      }
      nd := nd + [outputDirectoryPath.value];
      var record := RunBuilder(o, token, outputDirectoryPath.value);
      if record.Ok? {
        nc := nc[token := record.value];
      } else {
        be := Some(record.error);
      }
    }

    /** The promise-map-series of buildAndCache: the statistics start
        empty, then ProcessToken runs on each token in order until a
        directory cannot be made. */
    method MapSeries(o: Oracles, oldCache: map<string, CacheItem>, names: seq<string>)
        returns (newCache: map<string, CacheItem>, newOutputDirectories: seq<string>,
                 buildError: Option<BuildError>, aborted: Option<string>)
      requires Valid()
      modifies this`cacheHits, this`cacheMisses, this`cacheCounter, this`made
      ensures Valid()
      ensures Pass(newCache, newOutputDirectories, cacheHits, cacheMisses, cacheCounter, buildError, aborted) ==
        Run(o, cachePath, oldCache, old(cacheCounter), names)
    {
      newCache, newOutputDirectories, buildError, aborted := map[], [], None, None;
      cacheHits := [];
      cacheMisses := [];
      ghost var counter := cacheCounter;
      var i := 0;
      assert Run(o, cachePath, oldCache, counter, names[..i]) == Start(counter);
      hide Run, Step, CacheDirs, CacheDir;
      while i < |names| && aborted.None?
        invariant 0 <= i <= |names|
        invariant Valid()
        invariant Run(o, cachePath, oldCache, counter, names[..i]) ==
          Pass(newCache, newOutputDirectories, cacheHits, cacheMisses, cacheCounter, buildError, aborted)
      {
        RunExtend(o, cachePath, oldCache, counter, names, i);
        newCache, newOutputDirectories, buildError, aborted :=
          ProcessToken(o, oldCache, names[i], newCache, newOutputDirectories, buildError);
        i := i + 1;
      }
      if i < |names| {
        RunAbortedStays(o, cachePath, oldCache, counter, names, i);
      } else {
        assert names[..i] == names;
      }
    }

    /** buildAndCache(tokens, builder): verify the tokens, run the series,
        install the new state and purge in finally (with the for...in purge
        of index.js:164, which removes index keys), then settle. */
    method BuildAndCache(o: Oracles, tokens: seq<TokenValue>) returns (outcome: PassOutcome)
      requires Valid()
      modifies this
      ensures Valid()
      ensures CheckTokens(tokens).Err? ==>
        outcome == InvalidTokens(CheckTokens(tokens).error) && unchanged(this)
      ensures CheckTokens(tokens).Ok? ==>
        var p := Run(o, cachePath, old(multiFilterCache), old(cacheCounter), CheckTokens(tokens).value);
        && multiFilterCache == p.newCache
        && multiFilterOutputDirectories == p.newOutputDirectories
        && cacheHits == p.cacheHits && cacheMisses == p.cacheMisses
        && cacheCounter == p.counter
        && removed == old(removed) + PurgeTargets(ForInKeys(|old(multiFilterOutputDirectories)|), p.newOutputDirectories)
        && outcome == Outcome(p)
    {
      hide PurgeTargets, CheckTokens, Run;
      var verified := VerifyTokens(tokens);
      if verified.Err? {
        return InvalidTokens(verified.error);
      }
      var names := verified.value;
      var oldCache := multiFilterCache;
      var oldOutputDirectories := multiFilterOutputDirectories;
      multiFilterCache := map[];
      multiFilterOutputDirectories := [];
      var newCache, newOutputDirectories, buildError, aborted := MapSeries(o, oldCache, names);
      // finally
      multiFilterCache := newCache;
      multiFilterOutputDirectories := newOutputDirectories;
      var purged := PurgeOutputDirectoriesAsWritten(oldOutputDirectories, newOutputDirectories);
      removed := removed + purged;
      if aborted.Some? {
        return MkdirFailed(aborted.value);
      }
      if buildError.Some? {
        return BuildFailed(buildError.value);
      }
      return Merged(newOutputDirectories);
    }
  }
}
