# broccoli-multifilter in Dafny

This project models the two pieces of broccoli-multifilter that decide when a
per-token build can be reused.

- **The dependency fingerprint (`hash-files.js`).**
  - `hashFiles(paths)` folds every path, in list order, into one MD4 context.
  - A regular file contributes its tag `0`, then:
    - its mode (2 bytes, little-endian);
    - its mtime in milliseconds (6 bytes);
    - its size (8 bytes, as `writeDoubleLE` stores it).
  - A directory contributes its tag `1` and its entry count (8 bytes). Then, for each entry in sorted order, it contributes:
    - the entry name;
    - a NUL byte;
    - the entry's own contribution.
  - A missing path, or anything that is neither a file nor a directory, makes `hashFiles` throw.
- **The per-token cache (`index.js`).**
  - `MultiFilter.buildAndCache(tokens, builder)` first checks the tokens (`_verifyTokens`).
  - It then walks the tokens in order. For each token it either:
    - reuses the cached output directory, when the token's dependencies still hash to the recorded fingerprint; or
    - allocates a fresh numbered directory (`_makeCacheDir`) and asks the builder to fill it.
  - After the first failed build it only carries old records forward.
  - In `finally` it installs the new cache and directory list and calls `_purgeOutputDirectories`. That purge is meant to remove the old directories the pass dropped, but as written it removes index keys instead (see Findings).
  - Finally it either rethrows the first error or merges.

The filesystem is an immutable tree value (`FileTree.Node`). Directories list their entries in the order `readdirSync` returns them. A path is a sequence of names, and names are byte sequences. The MD4 context is modelled by the bytes fed to it (`HashFiles.Hash.fed`), and the MD4 hex digest is a function parameter. The builder, `mkdirSync`'s success, the filesystem and MD4 are bundled as `MultiFilterPlugin.Oracles`.

Each side has a specification and an implementation:

- **Specification.** Pure functions give the bytes fed and one pass's result:
  - `HashFiles.NodeStream`, `PathStream` and `FilesStream` give the bytes fed;
  - `MultiFilterPlugin.Step` and `Run` give one pass.
- **Implementation.** Methods follow the JavaScript statement by statement. Each is proved to feed exactly those bytes, or to leave the instance in exactly that state:
  - `Hash.Update*`, `UpdateHash` and `UpdatePaths`;
  - `MultiFilter.MakeCacheDir`, `ProcessToken`, `MapSeries` and `BuildAndCache`.
- **Properties.** Lemmas prove what the source promises about those functions:
  - `HashFilesProperties`, `HashStreamInjective`, `HashCanonicalForm`, `MultiFilterProperties` and `RebuildAvoidance`.

Files:

- `results.dfy`: `Option` and `Result`.
- `byte_encoding.dfy`: the `Buffer` writers, little-endian round trips, and the IEEE 754 bit pattern of `writeDoubleLE` on integers.
- `file_tree.dfy`: the tree, `statSync` on a path, and the order `Array.prototype.sort` gives names.
- `hash_files.dfy`: the byte streams, the `Hash` class, `updateHash` and `hashFiles`.
- `hash_properties.dfy`: record layout, change detection, `readdir` order, failure conditions, and composition.
- `hash_injective.dfy`: the stream determines the tree, for trees listed in sorted order.
- `hash_canonical.dfy`: the sorted listing of a tree, and the stream determining every dependency up to listing order.
- `multi_filter.dfy`: `_verifyTokens`, `_makeCacheDir`, `_purgeOutputDirectories`, one pass, and the `MultiFilter` class.
- `pass_properties.dfy`: what a pass stores and counts, failure handling, and idempotence.
- `rebuild_avoidance.dfy`: a record keeps hitting while its dependencies are the same trees.

## Model

| member | source | states |
|---|---|---|
| ByteEncoding.LittleEndianRoundTrip | hash-files.js:30-52 | reading the w little-endian bytes of n back gives n whenever n < 256^w |
| ByteEncoding.UIntWritersRoundTrip | hash-files.js:30-52 | writeUInt8/16LE/32LE/UIntLE(6) emit exactly 1/2/4/6 bytes, least significant first, and decoding them gives n modulo 2^(8w) (noAssert truncation) |
| ByteEncoding.DoubleBits | hash-files.js:22-28 | the binary64 pattern of a natural has sign bit 0 and, for n > 0, a biased exponent of at least 1023 |
| ByteEncoding.Float64LE | hash-files.js:22-28 | updateNumber's buffer is exactly 8 bytes |
| ByteEncoding.Float64Injective | hash-files.js:22-28 | two different integers below 2^53 never share their writeDoubleLE bytes |
| FileTree.FindEntry | hash-files.js:82 | looking up fullPath + sep + name finds the first entry of that name, and -1 exactly when the directory has none |
| FileTree.ResolveChild | hash-files.js:82 | statSync on a directory's path extended by one name reaches that directory's entry of the name, or fails |
| FileTree.SortNames | hash-files.js:77 | readdirSync(...).sort() is a permutation of the listing in ascending order |
| FileTree.SortedUnique | hash-files.js:77 | two ascending sequences with the same names are equal, so the sorted listing does not depend on the listing order |
| HashFiles.Hash.constructor | hash-files.js:10-12 | a new context has been fed nothing |
| HashFiles.Hash.UpdateBuffer | hash-files.js:14-16 | the buffer is appended to what the context has been fed |
| HashFiles.Hash.UpdateString | hash-files.js:18-20 | the name's bytes are appended |
| HashFiles.Hash.UpdateNumber | hash-files.js:22-28 | the 8 writeDoubleLE bytes of n are appended |
| HashFiles.Hash.UpdateUInt48 | hash-files.js:30-34 | the 6 low-order bytes of n are appended, least significant first |
| HashFiles.Hash.UpdateUInt32 | hash-files.js:36-40 | the 4 low-order bytes of n are appended |
| HashFiles.Hash.UpdateUInt16 | hash-files.js:42-46 | the 2 low-order bytes of n are appended |
| HashFiles.Hash.UpdateUInt8 | hash-files.js:48-52 | the low-order byte of n is appended |
| HashFiles.Hash.Digest | hash-files.js:54-56 | the digest is MD4 of everything fed |
| HashFiles.UpdateHash | hash-files.js:72-92 | updateHash feeds exactly PathStream(fs, path), or throws the error PathStream names (statSync failure, unexpected file type) |
| HashFiles.UpdateFile | hash-files.js:84-88 | a regular file feeds its tag, mode, mtime and size record |
| HashFiles.UpdateDirectory | hash-files.js:74-83 | a directory feeds DIR_TAG, the entry count and its sorted entries, or fails as the first failing entry does |
| HashFiles.UpdateEntries | hash-files.js:79-83 | the loop over sorted names feeds EntriesStream of the names, stopping at the first throw |
| HashFiles.UpdateEntry | hash-files.js:80-82 | one iteration feeds the name, a 0 byte and the recursive contribution of fullPath + sep + name |
| HashFiles.EntriesStreamPrefixFails | hash-files.js:79-83 | once an entry throws, the directory's walk fails with that error |
| HashFiles.UpdatePaths | hash-files.js:61-63 | hashFiles' loop feeds every path's stream in list order into the one context, or throws the first path's error |
| HashFiles.FilesStreamPrefixFails | hash-files.js:61-63 | once a path throws, hashFiles throws that error |
| HashFiles.HashFilesOf | hash-files.js:59-65 | hashFiles returns MD4 of FilesStream(fs, paths), or the error it names |
| HashFilesProperties.FileRecordLayout | hash-files.js:84-88 | a file contributes exactly 17 bytes: tag 0, mode mod 2^16 in bytes 1-2, mtime mod 2^48 in bytes 3-8, writeDoubleLE(size) in bytes 9-16, and no content |
| HashFilesProperties.FileRecordInjective | hash-files.js:84-88 | changing a file's mode, mtime or size (each within its width) changes its record |
| HashFilesProperties.EntryCountDetected | hash-files.js:75-78 | directories with different entry counts have different streams |
| HashFilesProperties.NamesPermutation | hash-files.js:77 | two listings of the same entries list the same names |
| HashFilesProperties.LookupAgrees | hash-files.js:82 | in two listings of the same entries, each name resolves to the same node or to none in both |
| HashFilesProperties.EntriesStreamSameLookups | hash-files.js:79-83 | a walk over names depends only on what each name resolves to |
| HashFilesProperties.ReaddirOrderIrrelevant | hash-files.js:74-83 | a directory's stream does not depend on the order readdirSync lists its entries in |
| HashFilesProperties.NodeStreamFailsIff | hash-files.js:72-92 | walking a well-formed tree throws exactly when it holds something neither file nor directory, and then with "Unexpected file type" |
| HashFilesProperties.EntriesStreamFailsIff | hash-files.js:79-83 | a directory's listing fails exactly when one of the walked entries holds a special file |
| HashFilesProperties.PathStreamFailsIff | hash-files.js:72-73 | updateHash throws StatFailed exactly on a missing path; an existing one fails exactly when its subtree holds a special file |
| HashFilesProperties.FilesStreamFailsIff | hash-files.js:59-65 | hashFiles throws exactly when some path does, and then with the first such path's error |
| HashFilesProperties.FilesStreamConcat | hash-files.js:59-65 | the stream of a + b is the stream of a followed by that of b: the digest depends only on the per-path streams in order |
| HashStreamInjective.NulDelimited | hash-files.js:80-81 | a NUL-free name followed by its 0 byte is read back uniquely |
| HashStreamInjective.EntriesStreamCons | hash-files.js:79-83 | a listing's stream is its first entry's bytes followed by the rest's |
| HashStreamInjective.HeaderInjective | hash-files.js:75-78 | the tag and entry count header determines the count |
| HashStreamInjective.NodeStreamPrefixInjective | hash-files.js:72-92 | a canonical tree's stream followed by anything determines the tree and what follows |
| HashStreamInjective.DirectoryPrefixInjective | hash-files.js:74-83 | the same for a directory: the header, the names and every entry are determined |
| HashStreamInjective.EntriesPrefixInjective | hash-files.js:79-83 | agreeing listings list the same names, each with the same entry |
| HashStreamInjective.StreamDeterminesTree | hash-files.js:74-88 | two canonical trees (sorted listings, fields within their widths, NUL-free names) with the same stream are equal: any change of mode, mtime, size, name or entry set changes the stream |
| HashStreamInjective.FilesStreamFront | hash-files.js:59-65 | hashFiles' stream of a non-empty list is the first path's stream followed by the rest's |
| HashCanonicalForm.CanonCanonical | hash-files.js:74-88 | listing every directory of a tree in sorted order, as the walk visits it, gives a canonical tree when the fields fit their widths and the names are NUL-free and distinct |
| HashCanonicalForm.CanonStream | hash-files.js:74-83 | a tree and its sorted listing feed the hash the same bytes, at every level |
| HashCanonicalForm.CanonOfCanonical | hash-files.js:77 | a tree already listed in sorted order is its own canonical form |
| HashCanonicalForm.StreamIdentifiesTree | hash-files.js:72-92 | two such trees, listed in any order, feed the same bytes exactly when they hold the same entries with the same records |
| HashCanonicalForm.DependencyNode | hash-files.js:72-73 | a dependency that hashes resolves to a tree whose canonical form feeds the same bytes |
| HashCanonicalForm.FirstDependencyInjective | hash-files.js:59-65 | when two dependency streams agree, the first dependency is the same tree on both filesystems, up to listing order, and the rest of the streams agree |
| HashCanonicalForm.FilesStreamPrefixInjective | hash-files.js:59-92 | a dependency list's stream followed by anything determines the tree at every dependency, up to listing order, and what follows |
| HashCanonicalForm.SamePathStream | hash-files.js:72-92 | a path naming the same tree up to listing order on two filesystems feeds the same bytes on both |
| HashCanonicalForm.SameTreesSameStream | hash-files.js:59-65 | dependencies that are the same trees up to listing order give hashFiles the same bytes |
| HashCanonicalForm.DependenciesDetermineTrees | hash-files.js:59-92 | one dependency list feeds the same bytes on two filesystems exactly when every dependency is the same tree on both up to listing order: changing any mode, mtime, size, name or entry of a dependency changes what hashFiles feeds to MD4 |
| MultiFilterPlugin.CheckTokens | index.js:144-157 | an accepted list is the tokens, all strings, pairwise distinct |
| MultiFilterPlugin.CheckTokensPrefixFails | index.js:146-156 | once a prefix is rejected, the whole list is rejected with that error |
| MultiFilterPlugin.VerifyTokens | index.js:144-157 | the loop with its Set returns the accepted strings or throws the first bad token's error |
| MultiFilterPlugin.DecimalString | index.js:135 | the counter's text is non-empty and all digits |
| MultiFilterPlugin.DecimalStringInjective | index.js:135 | different counters have different texts |
| MultiFilterPlugin.CacheDirInjective | index.js:135 | cachePath + sep + counter is different for different counters |
| MultiFilterPlugin.CacheDirFresh | index.js:132-139 | the next directory is none of those made before |
| MultiFilterPlugin.PurgeOutputDirectoriesAsWritten | index.js:159-169 | as written, rimraf.sync is called on each index key "0", "1", ... of the old array that the new list does not hold |
| MultiFilterPlugin.PurgeOutputDirectories | index.js:159-169 | as the comments at 109-110 and 160-162 intend, each old directory the new list does not hold is removed, in order |
| MultiFilterPlugin.BuildRecord | index.js:77-106 | an accepted build stores the fresh directory, the builder's non-empty dependency list and a fingerprint that matches the filesystem |
| MultiFilterPlugin.RunBuilder | index.js:77-112 | the builder call and the checks on its result give BuildRecord's record or the error the catch stores |
| MultiFilterPlugin.RunAbortedStays | index.js:74 | a mkdirSync throw rejects the series: no later token is visited |
| MultiFilterPlugin.MultiFilter.constructor | index.js:12-19 | a new instance has counter 0, no cache and no directories |
| MultiFilterPlugin.MultiFilter.MakeCacheDir | index.js:132-139 | succeeds exactly when mkdirSync does on cachePath + sep + counter, returns that path, which no earlier call returned, and increments the counter; a throw leaves the counter |
| MultiFilterPlugin.MultiFilter.ProcessToken | index.js:43-112 | one callback changes the closure's variables, the stats and the counter exactly as Step says |
| MultiFilterPlugin.MultiFilter.MapSeries | index.js:37-113 | the stats start empty and the series leaves the state Run gives |
| MultiFilterPlugin.MultiFilter.BuildAndCache | index.js:21-130 | rejected tokens throw before any field changes; otherwise the fields end as Run gives, the purge calls rimraf.sync on each index key "0", "1", ... of the old directory list that the new list lacks (the for...in at index.js:164), and the outcome is the mkdir error, the first build error, or the merge |
| MultiFilterProperties.CheckTokensAccepts | index.js:144-157 | _verifyTokens accepts exactly when every token is a string and no two are equal |
| MultiFilterProperties.CheckTokensBlames | index.js:147-154 | the error names a non-string in the list, or a string occurring twice |
| MultiFilterProperties.PurgeTargetsSpec | index.js:159-169 | the intended purge removes an old directory exactly when the new list does not hold it |
| MultiFilterProperties.PurgeSparesNew | index.js:163-166 | neither the purge as written nor the intended one removes anything the new list holds |
| MultiFilterProperties.PurgeAsWrittenMissesStale | index.js:164-166 | as written, no absolute old directory is ever removed, while every index key the new list lacks is |
| MultiFilterProperties.PurgeAsWrittenExample | index.js:164-166 | old ["/cache/0"], new []: as written "0" is removed; as intended "/cache/0" is |
| MultiFilterProperties.StepRecord | index.js:43-112 | a callback changes only its own token's record: to its old record or to the one built in the freshly allocated directory, and every other token's record stays as it was |
| MultiFilterProperties.RunKeepsEarlierRecords | index.js:42-113 | with distinct tokens (which _verifyTokens ensures), a record stored for a token stays unchanged to the end of the pass, even past a later failed build: newCache is only set for the token at hand (50, 65, 106) |
| MultiFilterProperties.StepFails | index.js:106-112 | the callback whose build fails stores no record for its token |
| MultiFilterProperties.StepClean | index.js:62-68 | a callback that ends without error stores a record that hits and appends its directory |
| MultiFilterProperties.RunRecords | index.js:42-113 | every stored token was in the pass; every record is the old one unchanged, or a hitting record with dependencies in a directory numbered from the counter's starting value on |
| MultiFilterProperties.RunStats | index.js:55-75 | cacheHits holds tokens whose old record hashed to its fingerprint, cacheMisses those that did not; each miss allocated one directory except one whose mkdirSync threw |
| MultiFilterProperties.RunClassifies | index.js:45-75 | a token visited before any build error or abort is in cacheHits exactly when its old record still hashes to its fingerprint and in cacheMisses exactly when it does not; with distinct tokens a hit's old record is the one stored |
| MultiFilterProperties.RunListed | index.js:48-74 | every record in newCache has its directory in newOutputDirectories: each newCache.set follows a push of that record's directory (49-50, 64-65, 74 and 106) |
| MultiFilterProperties.PurgeKeepsRecords | index.js:108-110 | the purge at the end of a pass, as written or as intended, never removes the directory of a record the new cache holds |
| RebuildAvoidance.SameDependenciesSameHit | index.js:55-62 | a record hits on a filesystem where its dependencies are the same trees up to listing order exactly when it hits on the original one |
| RebuildAvoidance.RerunSameDependencies | index.js:55-68 | a pass whose records all hit, repeated where every record's dependencies are unchanged up to listing order, counts only hits, builds nothing and carries every record and directory forward |
| MultiFilterProperties.RunAfterError | index.js:45-53 | after the first build error nothing is built, counted or allocated; the remaining tokens' old records and directories are carried forward |
| MultiFilterProperties.FailedTokenHasNoRecord | index.js:106-112 | the token whose build failed has no record after the pass, so the next pass cannot count it as a hit |
| MultiFilterProperties.CleanRun | index.js:42-113 | a pass that merges stores one hitting record per token, with the directories in token order |
| MultiFilterProperties.RerunAllHits | index.js:55-68 | if every token's record hits, the pass counts only hits, copies records and directories and allocates nothing |
| MultiFilterProperties.CleanPassIdempotent | index.js:42-129 | rerunning a pass that merged, on the same filesystem, calls no builder and reproduces its cache and directories |

## Left out

- The MD4 digest and its hex text come from `crypto`. They are the parameter `md4`, a function of the bytes fed. A collision-free digest is not assumed: the injectivity lemmas are about the byte stream.
- `Buffer`'s UTF-8 encoding of names is not modelled; names are byte sequences.
  - `Array.prototype.sort` compares UTF-16 code units. The model sorts names by their bytes.
  - The two orders differ only between characters above U+FFFF and characters in U+E000..U+FFFF.
- `statSync`, `readdirSync` and `path.sep` are modelled as follows:
  - The filesystem is a tree value, with no symbolic links and no permission errors.
  - `readdirSync` on a directory that `statSync` just found always succeeds.
  - `path.sep` is `/`.
- ByteEncoding.DoubleBits: numbers of 2^53 and above are truncated to 52 mantissa bits rather than rounded to nearest as IEEE 754 does. Sizes and entry counts that large do not occur, and the injectivity lemmas assume smaller ones.
- HashCanonicalForm.StreamIdentifiesTree, HashCanonicalForm.DependenciesDetermineTrees: proved only for trees whose fields fit their widths (mode < 2^16, mtime < 2^48, size < 2^53), whose names are NUL-free and distinct, and whose directories hold fewer than 2^53 entries. Outside that, a mode of 65536 hashes like a mode of 0, and a name containing a 0 byte can collide with another listing.
- A negative mtime (a file dated before 1970) is not modelled; mtimes are naturals.
- `promise-map-series` and the `then`/`catch`/`finally` chain are one sequential loop.
  - A builder that returns a promise is modelled by the value it settles to.
  - A `mkdirSync` throw inside the callback rejects the series, so `aborted` ends the pass. `finally` still installs and purges.
- The builder is a function of (token, directory), `Oracles.builder`. Its effects on the filesystem and its access to `this` are not modelled, and the filesystem is the same before and after it runs. That also leaves out the stat race described at index.js:95-99.
- The builder's result is one of three cases, `BuildOutput`: no object or no `dependencies`, a non-array, or a list of paths. Elements that are not strings are not modelled.
- MultiFilterPlugin.BuildRecord: a builder that throws a falsy value (`throw null`) is recorded as an error, whereas `if (buildError)` would ignore it.
- `MergeTrees` is represented by the outcome `Merged(newOutputDirectories)`. Its overwrite conflicts and its own throws are not modelled.
- `rimraf.sync` and `mkdirSync` are recorded effects: the `removed` and `made` fields of `MultiFilter`. `rimraf.sync` never throws in the model. In the source, a throw inside `finally` (index.js:114-119) would reject the build with that error, after the new cache and directory list were installed.
- The `broccoli-plugin` base class, its `outputPath` and the `name`/`annotation` options are not modelled. `cachePath` is a constructor parameter.
- Between index.js:33 and the `finally` at 114-117, `_multiFilterOutputDirectories` holds an empty `Set`. The model holds an empty sequence.
- The first pass sees an undefined cache and directory list. The constructor models them as empty.
- MultiFilterPlugin.VerifyTokens returns the tokens as strings; `_verifyTokens` returns nothing and throws on failure.
- Missing and unreadable paths:
  - No "not found" tag is ever fed. hash-files.js:69-70 has it commented out, and `statSync` on a missing path throws (hash-files.js:73).
  - There is no option to tolerate dependencies that do not exist.
  - A directory `readdirSync` cannot read makes `hashFiles` throw (hash-files.js:77). It is not hashed as unreadable. The model's tree has no unreadable directories (see above).
- A file record is the type tag followed by the mode (hash-files.js:85-86). The mode's permission bits get no separate field.
- A builder result of the wrong shape throws inside the promise chain (index.js:82-93). The catch at index.js:108-112 records it as the build error.
- A `mkdirSync` throw (index.js:74) ends the whole series, not only that token's build.
- The test file is not modelled. Its callbacks return bare arrays, which index.js:82 rejects, so its expectations do not describe this code.

## Findings

| source | as written | input that shows it | evidently intended | confidence | as-written member | corrected member |
|---|---|---|---|---|---|---|
| index.js:164 | `for (... in oldOutputDirectories)` iterates an array's index keys "0", "1", ..., so rimraf.sync is called on those relative paths and never on a stale directory | old directories ["/cache/0"], new directories [] (a token dropped from the pass): "0" is removed and "/cache/0" is kept | iterate the values, removing every old directory the new list no longer holds, as the comments at 109-110 and 160-162 say | high; not executed | MultiFilterPlugin.PurgeOutputDirectoriesAsWritten, MultiFilterProperties.PurgeAsWrittenMissesStale, MultiFilterProperties.PurgeAsWrittenExample | MultiFilterPlugin.PurgeOutputDirectories, MultiFilterProperties.PurgeTargetsSpec |
