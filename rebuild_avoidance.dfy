/** Where the hashing and the pass meet: a cached build is reused as long as
    its dependencies are the same trees, whatever else changes on the
    filesystem. */
module RebuildAvoidance {
  import opened Results
  import opened FileTree
  import opened HashFilesProperties
  import opened HashCanonicalForm
  import opened MultiFilterPlugin
  import opened MultiFilterProperties

  /** Every dependency of the record is, on the second filesystem, the same
      well-formed tree up to listing order as on the first, and the digest
      is the same function. */
  ghost predicate SameDependencies(o1: Oracles, o2: Oracles, item: CacheItem)
  {
    && o1.md4 == o2.md4
    && forall p | p in item.dependencies ::
         SameTreeAt(o1.fs, o2.fs, p) && WellFormed(Resolve(o1.fs, p).value) && WellFormed(Resolve(o2.fs, p).value)
  }

  /** A record hits on the second filesystem exactly when it hits on the
      first, if its dependencies did not change there: touching files
      outside the dependency list, or relisting a directory in another
      order, never forces a rebuild. */
  lemma SameDependenciesSameHit(o1: Oracles, o2: Oracles, item: CacheItem)
    requires SameDependencies(o1, o2, item)
    ensures IsHit(o1, item) <==> IsHit(o2, item)
  {
    SameTreesSameStream(o1.fs, o2.fs, item.dependencies);
  }

  /** A pass whose records all hit, repeated on a filesystem where every
      record's dependencies are the same trees, builds nothing: it counts
      only hits and carries every record and directory forward. */
  lemma RerunSameDependencies(o1: Oracles, o2: Oracles, cachePath: string, cache: map<string, CacheItem>, counter: nat, tokens: seq<string>)
    requires forall t | t in tokens :: t in cache && IsHit(o1, cache[t]) && SameDependencies(o1, o2, cache[t])
    ensures Run(o2, cachePath, cache, counter, tokens) ==
      Pass(CarriedRecords(cache, tokens), CarriedDirectories(cache, tokens), tokens, [], counter, None, None)
  {
    hide Run, IsHit, SameDependencies, CarriedRecords, CarriedDirectories;
    forall t | t in tokens ensures t in cache && IsHit(o2, cache[t]) {
      SameDependenciesSameHit(o1, o2, cache[t]);
    }
    RerunAllHits(o2, cachePath, cache, counter, tokens);
  }
}
