/** What buildAndCache promises: which token lists it accepts, which
    directories the purge removes, what a pass records, how it behaves after
    the first failed build, and that a clean pass is a fixed point. */
module MultiFilterProperties {
  import opened Results
  import opened HashFiles
  import opened MultiFilterPlugin

  // ---- _verifyTokens ----

  /** The tokens are accepted exactly when every one is a string and no two
      are equal. */
  lemma {:induction false} CheckTokensAccepts(tokens: seq<TokenValue>)
    ensures CheckTokens(tokens).Ok? <==>
      (forall i :: 0 <= i < |tokens| ==> tokens[i].Str?) &&
      (forall i, j :: 0 <= i < j < |tokens| ==> tokens[i] != tokens[j])
    decreases |tokens|
  {
    if tokens != [] {
      var prefix := tokens[..|tokens| - 1];
      var last := tokens[|tokens| - 1];
      CheckTokensAccepts(prefix);
      assert forall i :: 0 <= i < |prefix| ==> prefix[i] == tokens[i];
      if CheckTokens(prefix).Ok? && last.Str? {
        var strings := CheckTokens(prefix).value;
        if last.s in strings {
          var k :| 0 <= k < |strings| && strings[k] == last.s;
          assert tokens[k] == last;
        }
      }
      if CheckTokens(tokens).Ok? {
        assert CheckTokens(prefix).Ok?;
      }
    }
  }

  /** A rejected list holds the value the error names: a non-string, or a
      string that occurs twice. */
  lemma {:induction false} CheckTokensBlames(tokens: seq<TokenValue>)
    ensures CheckTokens(tokens).Err? ==>
      match CheckTokens(tokens).error
      case ExpectedString(shown) => NonString(shown) in tokens
      case DuplicateInputFile(s) => multiset(tokens)[Str(s)] >= 2
    decreases |tokens|
  {
    if tokens != [] {
      var prefix := tokens[..|tokens| - 1];
      var last := tokens[|tokens| - 1];
      assert tokens == prefix + [last];
      CheckTokensBlames(prefix);
      if CheckTokens(prefix).Ok? && last.Str? {
        var strings := CheckTokens(prefix).value;
        if last.s in strings {
          var k :| 0 <= k < |strings| && strings[k] == last.s;
          assert prefix[k] == last;
          assert multiset(prefix)[last] >= 1;
        }
      }
    }
  }

  // ---- _purgeOutputDirectories ----

  /** The intended purge removes an old directory exactly when the new list
      does not hold it. */
  lemma {:induction false} PurgeTargetsSpec(oldDirs: seq<string>, newDirs: seq<string>)
    ensures forall d :: d in PurgeTargets(oldDirs, newDirs) <==> d in oldDirs && d !in newDirs
    decreases |oldDirs|
  {
    if oldDirs != [] {
      var prefix := oldDirs[..|oldDirs| - 1];
      PurgeTargetsSpec(prefix, newDirs);
      assert oldDirs == prefix + [oldDirs[|oldDirs| - 1]];
    }
  }

  /** Neither the purge as written nor the intended one removes a directory
      the new pass still uses. */
  lemma PurgeSparesNew(oldDirs: seq<string>, newDirs: seq<string>)
    ensures forall d | d in newDirs ::
      d !in PurgeTargets(oldDirs, newDirs) && d !in PurgeTargets(ForInKeys(|oldDirs|), newDirs)
  {
    PurgeTargetsSpec(oldDirs, newDirs);
    PurgeTargetsSpec(ForInKeys(|oldDirs|), newDirs);
  }

  /** As written, the purge never removes an old cache directory (their paths
      start at the root), and removes the relative paths "0", "1", ... that
      the new list does not hold instead. */
  lemma PurgeAsWrittenMissesStale(oldDirs: seq<string>, newDirs: seq<string>)
    requires forall d | d in oldDirs :: |d| > 0 && d[0] == '/'
    ensures forall d | d in oldDirs :: d !in PurgeTargets(ForInKeys(|oldDirs|), newDirs)
    ensures forall i :: 0 <= i < |oldDirs| && DecimalString(i) !in newDirs ==>
      DecimalString(i) in PurgeTargets(ForInKeys(|oldDirs|), newDirs)
  {
    var keys := ForInKeys(|oldDirs|);
    PurgeTargetsSpec(keys, newDirs);
    forall d | d in oldDirs ensures d !in keys {
    }
    forall i | 0 <= i < |oldDirs| ensures DecimalString(i) in keys {
      assert keys[i] == DecimalString(i);
    }
  }

  /** One stale directory: as written the purge removes "0" and keeps
      "/cache/0"; the intended purge removes "/cache/0". */
  lemma PurgeAsWrittenExample()
    ensures PurgeTargets(ForInKeys(1), []) == ["0"]
    ensures PurgeTargets(["/cache/0"], []) == ["/cache/0"]
  {
    assert ForInKeys(1) == [DecimalString(0)];
    assert DecimalString(0) == ['0'];
  }

  // ---- one pass ----

  /** One token's effect on the records: only its own key can change, and
      then to its old record or to the record built in the fresh directory;
      every other token's record stays as it was. */
  lemma StepRecord(o: Oracles, cachePath: string, oldCache: map<string, CacheItem>, p: Pass, token: string)
    ensures var r := Step(o, cachePath, oldCache, p, token);
      && p.counter <= r.counter
      && (forall t | t in r.newCache && t != token :: t in p.newCache && r.newCache[t] == p.newCache[t])
      && (forall t | t in p.newCache && t != token :: t in r.newCache && r.newCache[t] == p.newCache[t])
      && (token in r.newCache ==>
            (token in oldCache && r.newCache[token] == oldCache[token]) ||
            (token in p.newCache && r.newCache[token] == p.newCache[token]) ||
            (r.counter == p.counter + 1 &&
             BuildRecord(o, token, CacheDir(cachePath, p.counter)) == Ok(r.newCache[token])))
  {
    hide IsHit, BuildRecord;
  }

  /** After a failed build a token only carries its old record forward. */
  lemma StepAfterError(o: Oracles, cachePath: string, oldCache: map<string, CacheItem>, p: Pass, token: string)
    requires p.buildError.Some? && p.aborted.None?
    ensures Step(o, cachePath, oldCache, p, token) ==
      if token in oldCache then
        p.(newOutputDirectories := p.newOutputDirectories + [oldCache[token].outputDirectoryPath],
           newCache := p.newCache[token := oldCache[token]])
      else p
  {
  }

  /** What a pass stores: every key is a token; every record is either the
      old one, unchanged, or one built in this pass, which has dependencies,
      hits on the filesystem it was built on, and lives in a directory
      numbered from the counter's starting value on. */
  lemma {:induction false} RunRecords(o: Oracles, cachePath: string, oldCache: map<string, CacheItem>, counter: nat, tokens: seq<string>)
    ensures var q := Run(o, cachePath, oldCache, counter, tokens);
      && counter <= q.counter
      && (forall t | t in q.newCache :: t in tokens)
      && (forall t | t in q.newCache ::
            (t in oldCache && q.newCache[t] == oldCache[t]) ||
            (IsHit(o, q.newCache[t]) && q.newCache[t].dependencies != [] &&
             exists k :: counter <= k < q.counter && q.newCache[t].outputDirectoryPath == CacheDir(cachePath, k)))
    decreases |tokens|
  {
    hide IsHit, BuildRecord, CacheDir, Step;
    if tokens != [] {
      var prefix := tokens[..|tokens| - 1];
      var token := tokens[|tokens| - 1];
      RunRecords(o, cachePath, oldCache, counter, prefix);
      var p := Run(o, cachePath, oldCache, counter, prefix);
      var q := Run(o, cachePath, oldCache, counter, tokens);
      assert q == Step(o, cachePath, oldCache, p, token);
      StepRecord(o, cachePath, oldCache, p, token);
      forall t | t in q.newCache
        ensures t in tokens
        ensures (t in oldCache && q.newCache[t] == oldCache[t]) ||
          (IsHit(o, q.newCache[t]) && q.newCache[t].dependencies != [] &&
           exists k :: counter <= k < q.counter && q.newCache[t].outputDirectoryPath == CacheDir(cachePath, k))
      {
        if t != token || (t in p.newCache && q.newCache[t] == p.newCache[t]) {
          assert t in p.newCache && q.newCache[t] == p.newCache[t];
          assert t in prefix;
        } else if !(t in oldCache && q.newCache[t] == oldCache[t]) {
          var built := BuildRecord(o, token, CacheDir(cachePath, p.counter));
          assert built == Ok(q.newCache[t]);
          assert q.newCache[t].outputDirectoryPath == CacheDir(cachePath, p.counter);
        }
      }
    }
  }

  /** A record stored for an earlier token survives the rest of the pass,
      including a later failed build: newCache is only ever set for the
      token at hand. This needs the tokens to be distinct, which
      _verifyTokens ensures before the pass starts. */
  lemma {:induction false} RunKeepsEarlierRecords(o: Oracles, cachePath: string, oldCache: map<string, CacheItem>, counter: nat, tokens: seq<string>, k: nat)
    requires DistinctStrings(tokens) && k <= |tokens|
    ensures var p := Run(o, cachePath, oldCache, counter, tokens[..k]);
      var q := Run(o, cachePath, oldCache, counter, tokens);
      forall t | t in p.newCache :: t in q.newCache && q.newCache[t] == p.newCache[t]
    decreases |tokens| - k
  {
    var p := Run(o, cachePath, oldCache, counter, tokens[..k]);
    if k == |tokens| {
      assert tokens[..k] == tokens;
    } else {
      RunRecords(o, cachePath, oldCache, counter, tokens[..k]);
      assert tokens[k] !in p.newCache by {
        assert forall j :: 0 <= j < k ==> tokens[..k][j] != tokens[k];
      }
      hide Run, Step, DistinctStrings;
      RunExtend(o, cachePath, oldCache, counter, tokens, k);
      StepRecord(o, cachePath, oldCache, p, tokens[k]);
      RunKeepsEarlierRecords(o, cachePath, oldCache, counter, tokens, k + 1);
    }
  }

  /** The statistics: a token counted as a hit had an old record that still
      hashes to its fingerprint; one counted as a miss had none; and each
      miss allocated one directory, except the one whose mkdirSync threw. */
  lemma {:induction false} RunStats(o: Oracles, cachePath: string, oldCache: map<string, CacheItem>, counter: nat, tokens: seq<string>)
    ensures var q := Run(o, cachePath, oldCache, counter, tokens);
      && (forall t | t in q.cacheHits :: t in tokens && t in oldCache && IsHit(o, oldCache[t]))
      && (forall t | t in q.cacheMisses :: t in tokens && !(t in oldCache && IsHit(o, oldCache[t])))
      && q.counter + (if q.aborted.Some? then 1 else 0) == counter + |q.cacheMisses|
    decreases |tokens|
  {
    hide IsHit, BuildRecord, CacheDir;
    if tokens != [] {
      var prefix := tokens[..|tokens| - 1];
      RunStats(o, cachePath, oldCache, counter, prefix);
    }
  }

  /** A token's statistics only grow: a later token is appended, never an
      earlier one removed. */
  lemma StepStatsGrow(o: Oracles, cachePath: string, oldCache: map<string, CacheItem>, p: Pass, token: string)
    ensures var r := Step(o, cachePath, oldCache, p, token);
      && (forall t | t in p.cacheHits :: t in r.cacheHits)
      && (forall t | t in p.cacheMisses :: t in r.cacheMisses)
  {
    hide IsHit, BuildRecord;
  }

  lemma {:induction false} RunStatsGrow(o: Oracles, cachePath: string, oldCache: map<string, CacheItem>, counter: nat, tokens: seq<string>, k: nat)
    requires k <= |tokens|
    ensures var p := Run(o, cachePath, oldCache, counter, tokens[..k]);
      var q := Run(o, cachePath, oldCache, counter, tokens);
      && (forall t | t in p.cacheHits :: t in q.cacheHits)
      && (forall t | t in p.cacheMisses :: t in q.cacheMisses)
    decreases |tokens| - k
  {
    if k == |tokens| {
      assert tokens[..k] == tokens;
    } else {
      hide Run, Step;
      RunExtend(o, cachePath, oldCache, counter, tokens, k);
      StepStatsGrow(o, cachePath, oldCache, Run(o, cachePath, oldCache, counter, tokens[..k]), tokens[k]);
      RunStatsGrow(o, cachePath, oldCache, counter, tokens, k + 1);
    }
  }

  /** Every token visited before a build error or an abort is classified:
      into cacheHits exactly when its old record still hashes to its
      fingerprint, and into cacheMisses otherwise. A hit's old record is
      the one the pass stores, when the tokens are distinct. */
  lemma RunClassifies(o: Oracles, cachePath: string, oldCache: map<string, CacheItem>, counter: nat, tokens: seq<string>, i: nat)
    requires i < |tokens|
    requires Run(o, cachePath, oldCache, counter, tokens[..i]).buildError.None?
    requires Run(o, cachePath, oldCache, counter, tokens[..i]).aborted.None?
    ensures var q := Run(o, cachePath, oldCache, counter, tokens);
      var hit := tokens[i] in oldCache && IsHit(o, oldCache[tokens[i]]);
      && (tokens[i] in q.cacheHits <==> hit)
      && (tokens[i] in q.cacheMisses <==> !hit)
      && (hit && DistinctStrings(tokens) ==> tokens[i] in q.newCache && q.newCache[tokens[i]] == oldCache[tokens[i]])
  {
    var p := Run(o, cachePath, oldCache, counter, tokens[..i]);
    var r := Run(o, cachePath, oldCache, counter, tokens[..i + 1]);
    RunStats(o, cachePath, oldCache, counter, tokens);
    hide Run, IsHit, BuildRecord, CacheDir, DistinctStrings;
    RunExtend(o, cachePath, oldCache, counter, tokens, i);
    assert r == Step(o, cachePath, oldCache, p, tokens[i]);
    RunStatsGrow(o, cachePath, oldCache, counter, tokens, i + 1);
    if tokens[i] in oldCache && IsHit(o, oldCache[tokens[i]]) {
      assert tokens[i] in r.cacheHits && tokens[i] in r.newCache && r.newCache[tokens[i]] == oldCache[tokens[i]];
      if DistinctStrings(tokens) {
        RunKeepsEarlierRecords(o, cachePath, oldCache, counter, tokens, i + 1);
      }
    } else {
      assert tokens[i] in r.cacheMisses;
    }
  }

  // ---- the records and the purge ----

  /** Every stored record's directory is in the new directory list. */
  predicate Listed(p: Pass)
  {
    forall t | t in p.newCache :: p.newCache[t].outputDirectoryPath in p.newOutputDirectories
  }

  /** A callback pushes the directory of every record it sets. */
  lemma StepListed(o: Oracles, cachePath: string, oldCache: map<string, CacheItem>, p: Pass, token: string)
    requires Listed(p)
    ensures Listed(Step(o, cachePath, oldCache, p, token))
  {
    hide IsHit;
    var r := Step(o, cachePath, oldCache, p, token);
    if p.aborted.None? && p.buildError.None? && !(token in oldCache && IsHit(o, oldCache[token])) {
      var dir := CacheDir(cachePath, p.counter);
      if o.mkdirOk(dir) {
        match BuildRecord(o, token, dir)
        case Ok(item) => assert item.outputDirectoryPath == dir;
        case Err(_) =>
      }
    }
  }

  lemma {:induction false} RunListed(o: Oracles, cachePath: string, oldCache: map<string, CacheItem>, counter: nat, tokens: seq<string>)
    ensures Listed(Run(o, cachePath, oldCache, counter, tokens))
    decreases |tokens|
  {
    if tokens != [] {
      hide Run, Step, Listed;
      RunListed(o, cachePath, oldCache, counter, tokens[..|tokens| - 1]);
      RunSnoc(o, cachePath, oldCache, counter, tokens);
      StepListed(o, cachePath, oldCache, Run(o, cachePath, oldCache, counter, tokens[..|tokens| - 1]), tokens[|tokens| - 1]);
    }
  }

  /** The purge at the end of a pass, as written or as intended, never
      removes the directory a record of the new cache points to. */
  lemma PurgeKeepsRecords(o: Oracles, cachePath: string, oldCache: map<string, CacheItem>, counter: nat, tokens: seq<string>, oldDirs: seq<string>)
    ensures var q := Run(o, cachePath, oldCache, counter, tokens);
      forall t | t in q.newCache ::
        && q.newCache[t].outputDirectoryPath !in PurgeTargets(oldDirs, q.newOutputDirectories)
        && q.newCache[t].outputDirectoryPath !in PurgeTargets(ForInKeys(|oldDirs|), q.newOutputDirectories)
  {
    var q := Run(o, cachePath, oldCache, counter, tokens);
    RunListed(o, cachePath, oldCache, counter, tokens);
    PurgeSparesNew(oldDirs, q.newOutputDirectories);
  }

  /** The records a pass carries forward from the old cache for tokens. */
  function CarriedRecords(cache: map<string, CacheItem>, tokens: seq<string>): map<string, CacheItem>
  {
    map t | t in cache && t in tokens :: cache[t]
  }

  /** Their directories, in token order. */
  function CarriedDirectories(cache: map<string, CacheItem>, tokens: seq<string>): seq<string>
  {
    if tokens == [] then []
    else
      var last := tokens[|tokens| - 1];
      CarriedDirectories(cache, tokens[..|tokens| - 1]) + (if last in cache then [cache[last].outputDirectoryPath] else [])
  }

  /** After the first failed build nothing is built, counted or allocated any
      more: every later token's old record, if it has one, is copied into the
      new cache and its directory appended, and the error stays the first. */
  lemma {:induction false} RunAfterError(o: Oracles, cachePath: string, oldCache: map<string, CacheItem>, counter: nat, tokens: seq<string>, i: nat)
    requires i <= |tokens|
    requires Run(o, cachePath, oldCache, counter, tokens[..i]).buildError.Some?
    requires Run(o, cachePath, oldCache, counter, tokens[..i]).aborted.None?
    ensures var p := Run(o, cachePath, oldCache, counter, tokens[..i]);
      Run(o, cachePath, oldCache, counter, tokens) ==
        p.(newCache := p.newCache + CarriedRecords(oldCache, tokens[i..]),
           newOutputDirectories := p.newOutputDirectories + CarriedDirectories(oldCache, tokens[i..]))
    decreases |tokens|
  {
    hide IsHit, BuildRecord, CacheDir, Step;
    var p := Run(o, cachePath, oldCache, counter, tokens[..i]);
    if |tokens| == i {
      assert tokens[..i] == tokens;
      assert CarriedRecords(oldCache, tokens[i..]) == map[];
      assert p.newCache + map[] == p.newCache;
    } else {
      var prefix := tokens[..|tokens| - 1];
      assert prefix[..i] == tokens[..i];
      RunAfterError(o, cachePath, oldCache, counter, prefix, i);
      CarryOneMore(o, cachePath, oldCache, counter, tokens, i);
    }
  }

  /** The step of RunAfterError: one more token after the error. */
  lemma CarryOneMore(o: Oracles, cachePath: string, oldCache: map<string, CacheItem>, counter: nat, tokens: seq<string>, i: nat)
    requires i < |tokens|
    requires Run(o, cachePath, oldCache, counter, tokens[..i]).buildError.Some?
    requires Run(o, cachePath, oldCache, counter, tokens[..i]).aborted.None?
    requires var p := Run(o, cachePath, oldCache, counter, tokens[..i]);
      var prefix := tokens[..|tokens| - 1];
      Run(o, cachePath, oldCache, counter, prefix) ==
        p.(newCache := p.newCache + CarriedRecords(oldCache, prefix[i..]),
           newOutputDirectories := p.newOutputDirectories + CarriedDirectories(oldCache, prefix[i..]))
    ensures var p := Run(o, cachePath, oldCache, counter, tokens[..i]);
      Run(o, cachePath, oldCache, counter, tokens) ==
        p.(newCache := p.newCache + CarriedRecords(oldCache, tokens[i..]),
           newOutputDirectories := p.newOutputDirectories + CarriedDirectories(oldCache, tokens[i..]))
  {
    hide Run, Step, CarriedRecords, CarriedDirectories;
    var p := Run(o, cachePath, oldCache, counter, tokens[..i]);
    var prefix := tokens[..|tokens| - 1];
    var token := tokens[|tokens| - 1];
    RunSnoc(o, cachePath, oldCache, counter, tokens);
    StepAfterError(o, cachePath, oldCache, Run(o, cachePath, oldCache, counter, prefix), token);
    assert tokens[i..] == prefix[i..] + [token];
    CarriedSnoc(oldCache, prefix[i..], token);
    var before := CarriedRecords(oldCache, prefix[i..]);
    if token in oldCache {
      assert (p.newCache + before)[token := oldCache[token]] == p.newCache + before[token := oldCache[token]];
    }
  }

  lemma RunSnoc(o: Oracles, cachePath: string, oldCache: map<string, CacheItem>, counter: nat, tokens: seq<string>)
    requires tokens != []
    ensures Run(o, cachePath, oldCache, counter, tokens) ==
      Step(o, cachePath, oldCache, Run(o, cachePath, oldCache, counter, tokens[..|tokens| - 1]), tokens[|tokens| - 1])
  {
    hide Step;
  }

  lemma CarriedSnoc(cache: map<string, CacheItem>, tokens: seq<string>, token: string)
    ensures CarriedRecords(cache, tokens + [token]) ==
      if token in cache then CarriedRecords(cache, tokens)[token := cache[token]] else CarriedRecords(cache, tokens)
    ensures CarriedDirectories(cache, tokens + [token]) ==
      CarriedDirectories(cache, tokens) + if token in cache then [cache[token].outputDirectoryPath] else []
  {
    assert (tokens + [token])[..|tokens|] == tokens;
  }

  /** The token whose build failed has no record after the pass, so the next
      pass cannot count it as a hit. */
  lemma FailedTokenHasNoRecord(o: Oracles, cachePath: string, oldCache: map<string, CacheItem>, counter: nat, tokens: seq<string>, i: nat)
    requires i < |tokens| && DistinctStrings(tokens)
    requires Run(o, cachePath, oldCache, counter, tokens[..i]).buildError.None?
    requires Run(o, cachePath, oldCache, counter, tokens[..i + 1]).buildError.Some?
    ensures tokens[i] !in Run(o, cachePath, oldCache, counter, tokens).newCache
  {
    var p := Run(o, cachePath, oldCache, counter, tokens[..i]);
    RunRecords(o, cachePath, oldCache, counter, tokens[..i]);
    assert tokens[i] !in p.newCache by {
      assert tokens[i] !in tokens[..i];
    }
    assert tokens[i] !in tokens[i + 1..];
    hide Run, Step, DistinctStrings;
    RunExtend(o, cachePath, oldCache, counter, tokens, i);
    StepFails(o, cachePath, oldCache, p, tokens[i]);
    RunAfterError(o, cachePath, oldCache, counter, tokens, i + 1);
  }

  /** The step that first fails a build stores nothing for its token. */
  lemma StepFails(o: Oracles, cachePath: string, oldCache: map<string, CacheItem>, p: Pass, token: string)
    requires p.buildError.None? && token !in p.newCache
    requires Step(o, cachePath, oldCache, p, token).buildError.Some?
    ensures Step(o, cachePath, oldCache, p, token).aborted.None?
    ensures token !in Step(o, cachePath, oldCache, p, token).newCache
  {
    hide IsHit, BuildRecord;
  }

  /** A failure stays; a token processed without one gets a record that
      hits, and its directory is appended. */
  lemma StepClean(o: Oracles, cachePath: string, oldCache: map<string, CacheItem>, p: Pass, token: string)
    ensures var r := Step(o, cachePath, oldCache, p, token);
      && (p.buildError.Some? ==> r.buildError.Some?)
      && (p.aborted.Some? ==> r.aborted.Some?)
      && (r.buildError.None? && r.aborted.None? ==>
            && token in r.newCache && IsHit(o, r.newCache[token])
            && r.newCache == p.newCache[token := r.newCache[token]]
            && r.newOutputDirectories == p.newOutputDirectories + [r.newCache[token].outputDirectoryPath])
  {
    hide IsHit, BuildRecord;
  }

  /** A pass without errors stores one record per token, each of which hits,
      and lists their directories in token order. */
  lemma {:induction false} CleanRun(o: Oracles, cachePath: string, oldCache: map<string, CacheItem>, counter: nat, tokens: seq<string>)
    requires DistinctStrings(tokens)
    requires Outcome(Run(o, cachePath, oldCache, counter, tokens)).Merged?
    ensures CleanRecords(o, Run(o, cachePath, oldCache, counter, tokens), tokens)
    decreases |tokens|
  {
    if tokens != [] {
      hide IsHit, BuildRecord, CacheDir, Run, Step, CleanRecords, DistinctStrings;
      var prefix := tokens[..|tokens| - 1];
      var token := tokens[|tokens| - 1];
      var p := Run(o, cachePath, oldCache, counter, prefix);
      RunSnoc(o, cachePath, oldCache, counter, tokens);
      StepClean(o, cachePath, oldCache, p, token);
      assert p.buildError.None? && p.aborted.None?;
      DistinctPrefix(tokens);
      CleanRun(o, cachePath, oldCache, counter, prefix);
      assert tokens == prefix + [token];
      CleanRecordsSnoc(o, p, Run(o, cachePath, oldCache, counter, tokens), prefix, token);
    }
  }

  lemma DistinctPrefix(tokens: seq<string>)
    requires tokens != [] && DistinctStrings(tokens)
    ensures DistinctStrings(tokens[..|tokens| - 1])
    ensures tokens[|tokens| - 1] !in tokens[..|tokens| - 1]
  {
    var prefix := tokens[..|tokens| - 1];
    forall i, j | 0 <= i < j < |prefix| ensures prefix[i] != prefix[j] {
      assert prefix[i] == tokens[i] && prefix[j] == tokens[j];
    }
  }

  /** One record per token, each a hit, with the directories in token order. */
  ghost predicate CleanRecords(o: Oracles, q: Pass, tokens: seq<string>)
  {
    && (forall t :: t in q.newCache <==> t in tokens)
    && |q.newOutputDirectories| == |tokens|
    && forall j :: 0 <= j < |tokens| ==>
         tokens[j] in q.newCache &&
         q.newOutputDirectories[j] == q.newCache[tokens[j]].outputDirectoryPath &&
         IsHit(o, q.newCache[tokens[j]])
  }

  lemma CleanRecordsSnoc(o: Oracles, p: Pass, q: Pass, prefix: seq<string>, token: string)
    requires CleanRecords(o, p, prefix) && token !in prefix
    requires token in q.newCache && IsHit(o, q.newCache[token])
    requires q.newCache == p.newCache[token := q.newCache[token]]
    requires q.newOutputDirectories == p.newOutputDirectories + [q.newCache[token].outputDirectoryPath]
    ensures CleanRecords(o, q, prefix + [token])
  {
    hide IsHit;
    var tokens := prefix + [token];
    forall j | 0 <= j < |tokens|
      ensures tokens[j] in q.newCache
      ensures q.newOutputDirectories[j] == q.newCache[tokens[j]].outputDirectoryPath
      ensures IsHit(o, q.newCache[tokens[j]])
    {
      if j < |prefix| {
        assert tokens[j] == prefix[j];
        assert tokens[j] != token;
      }
    }
  }

  /** If every token's record hits, a pass only counts hits: it copies the
      records and their directories and builds nothing. */
  lemma {:induction false} RerunAllHits(o: Oracles, cachePath: string, cache: map<string, CacheItem>, counter: nat, tokens: seq<string>)
    requires forall t | t in tokens :: t in cache && IsHit(o, cache[t])
    ensures Run(o, cachePath, cache, counter, tokens) ==
      Pass(CarriedRecords(cache, tokens), CarriedDirectories(cache, tokens), tokens, [], counter, None, None)
    decreases |tokens|
  {
    if tokens != [] {
      hide IsHit, BuildRecord, CacheDir, Run, Step, CarriedRecords, CarriedDirectories;
      var prefix := tokens[..|tokens| - 1];
      assert forall t | t in prefix :: t in tokens;
      RerunAllHits(o, cachePath, cache, counter, prefix);
      RerunHitStep(o, cachePath, cache, counter, tokens);
    } else {
      assert CarriedRecords(cache, tokens) == map[];
    }
  }

  /** The step of RerunAllHits: one more token whose record hits. */
  lemma RerunHitStep(o: Oracles, cachePath: string, cache: map<string, CacheItem>, counter: nat, tokens: seq<string>)
    requires tokens != []
    requires tokens[|tokens| - 1] in cache && IsHit(o, cache[tokens[|tokens| - 1]])
    requires var prefix := tokens[..|tokens| - 1];
      Run(o, cachePath, cache, counter, prefix) ==
        Pass(CarriedRecords(cache, prefix), CarriedDirectories(cache, prefix), prefix, [], counter, None, None)
    ensures Run(o, cachePath, cache, counter, tokens) ==
      Pass(CarriedRecords(cache, tokens), CarriedDirectories(cache, tokens), tokens, [], counter, None, None)
  {
    hide IsHit, BuildRecord, CacheDir, Run, CarriedRecords, CarriedDirectories;
    var prefix := tokens[..|tokens| - 1];
    var token := tokens[|tokens| - 1];
    RunSnoc(o, cachePath, cache, counter, tokens);
    assert tokens == prefix + [token];
    CarriedSnoc(cache, prefix, token);
  }

  lemma {:induction false} CarriedDirectoriesAll(cache: map<string, CacheItem>, tokens: seq<string>)
    requires forall t | t in tokens :: t in cache
    ensures |CarriedDirectories(cache, tokens)| == |tokens|
    ensures forall j :: 0 <= j < |tokens| ==> CarriedDirectories(cache, tokens)[j] == cache[tokens[j]].outputDirectoryPath
    decreases |tokens|
  {
    if tokens != [] {
      var prefix := tokens[..|tokens| - 1];
      assert forall t | t in prefix :: t in tokens;
      CarriedDirectoriesAll(cache, prefix);
    }
  }

  /** A pass that merged, repeated on the same tokens and an unchanged
      filesystem, hits on every token, builds and allocates nothing, and
      leaves the cache and the output directories as they were. */
  lemma CleanPassIdempotent(o: Oracles, cachePath: string, oldCache: map<string, CacheItem>, counter: nat, nextCounter: nat, tokens: seq<string>)
    requires DistinctStrings(tokens)
    requires Outcome(Run(o, cachePath, oldCache, counter, tokens)).Merged?
    ensures var q := Run(o, cachePath, oldCache, counter, tokens);
      Run(o, cachePath, q.newCache, nextCounter, tokens) ==
        Pass(q.newCache, q.newOutputDirectories, tokens, [], nextCounter, None, None)
  {
    hide Run, Step, IsHit, CarriedRecords, CarriedDirectories;
    var q := Run(o, cachePath, oldCache, counter, tokens);
    CleanRun(o, cachePath, oldCache, counter, tokens);
    CarriedOfClean(o, q, tokens);
    RerunAllHits(o, cachePath, q.newCache, nextCounter, tokens);
  }

  /** The records and directories of a clean pass are exactly those a pass
      that only hits would carry. */
  lemma CarriedOfClean(o: Oracles, q: Pass, tokens: seq<string>)
    requires CleanRecords(o, q, tokens)
    ensures forall t | t in tokens :: t in q.newCache && IsHit(o, q.newCache[t])
    ensures CarriedRecords(q.newCache, tokens) == q.newCache
    ensures CarriedDirectories(q.newCache, tokens) == q.newOutputDirectories
  {
    hide IsHit;
    forall t | t in tokens ensures t in q.newCache && IsHit(o, q.newCache[t]) {
      var j :| 0 <= j < |tokens| && tokens[j] == t;
    }
    CarriedDirectoriesAll(q.newCache, tokens);
  }
}
