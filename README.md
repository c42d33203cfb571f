# yarep repository core in Dafny

A model of three pieces of the yarep content repository, with proofs about them:

- **The node based file system repository** (`VirtualFileSystemRepository`). A path is resolved by
  stripping one trailing slash and asking the Map whether the path exists. On success a node handle is
  built whose uid is the path itself; otherwise `NoSuchNodeException` is thrown. `existsNode` can fall
  back to the raw content directory. `delete`, `getChildren` and `getRevisions` resolve the node and
  delegate to it. `getRootNode` is `getNode("/")` and `exists` is `existsNode`, so neither calls a
  node operation. `readConfiguration` fills in the repository's fields one step at a time.
- **The core registry** (`src/core/.../RepositoryFactory`). The `configurations` property lists
  `id,config` pairs. They are loaded into an ordered list, which can be searched by id. Ad-hoc
  registration refuses a taken id by returning `null`.
- **The older registry** (`src/yarep/.../RepositoryFactory`). It reads the same pairs into a
  fixed-size array. Its constructor swallows every exception, and its ad-hoc registration never
  records what it builds.

Modules: `Wrappers` (Option/Result for `null` and thrown exceptions), `Platform` (file names,
class-path resources, properties files, parsed Avalon configurations, all given as inputs), `Tokens`
(Java's `String.split(",")`), `Lookup` (the first-match search), `Vfs`, `CoreFactory`,
`YarepFactory`, and `Registries` (which compares the two registries).

Some things are given to the model as abstract inputs:

- The disk: the Map's paths for a content directory, whether `contentDir + path` exists, and each
  node's child paths and revision names (`Vfs.FileSystem`).
- The class path, the properties files, the configuration files, the loadable classes, and whether
  a class's `readConfiguration` accepts a file (`Platform.Environment`).
- `FileUtil.file(dir, name)`. It is kept symbolic: `Platform.FilePath.InDirOf` for
  `org.wyona.commons.io.FileUtil` (the file system repository and the core registry), and
  `Platform.FilePath.LegacyInDirOf` for `org.wyona.util.FileUtil` (the older registry).
- The Map after a node deletes itself (`Vfs.FileSystem.mapAfterDelete`).

The model follows the code as written; in particular:

- Path normalisation strips exactly one trailing slash. It is not idempotent: `/a//` resolves as
  `/a/` (`Vfs.StripIdempotentIff`, `Vfs.StripRemovesOnlyOne`).
- A duplicate ad-hoc registration returns `null`. It does not throw.
- Ids repeated in the configuration are all registered, and lookup returns the first
  (`CoreFactory.DuplicateIdsFromConfiguration`).
- The older registry does not fail fast. After an unreadable or malformed configuration its array is
  null, and every later call throws `NullPointerException` (`YarepFactory.Fault`).
- The `fallback` field of the file system repository is never assigned after its initialisation to
  false. So `existsNode` answers from the Map alone in every repository the code can build; the
  fallback branch is modelled anyway.

`delete` may change the Map only, to the abstract `FileSystem.mapAfterDelete` of the old Map and the
node's path; every other field keeps its value. Methods without a `modifies` clause (every lookup,
`existsNode`, `exists`, `getChildren`, `getRevisions`, and the older registry's
`newRepository(rid, config)`) cannot change any field. That is how "only reads" and "never
registers" are stated.

## Model

| member | source | states |
|---|---|---|
| Vfs.StripTrailingSlash | src/impl/java/org/wyona/yarep/impl/repo/vfs/VirtualFileSystemRepository.java:316-319 | the result is the path or the path minus one final `/`, and it differs from the path exactly when the path is longer than one character and ends in `/` |
| Vfs.StripAppendedSlash | src/impl/java/org/wyona/yarep/impl/repo/vfs/VirtualFileSystemRepository.java:297-300 | appending one `/` to a non-empty path without one at its end is undone by the stripping, and such a path is left alone |
| Vfs.StripIdempotentIff | src/impl/java/org/wyona/yarep/impl/repo/vfs/VirtualFileSystemRepository.java:316-319 | stripping twice equals stripping once, except for a path longer than two characters that ends in two slashes |
| Vfs.StripRemovesOnlyOne | src/impl/java/org/wyona/yarep/impl/repo/vfs/VirtualFileSystemRepository.java:316-319 | `/a//` strips to `/a/` and only a second strip gives `/a` |
| Vfs.Configured | src/impl/java/org/wyona/yarep/impl/repo/vfs/VirtualFileSystemRepository.java:80-100 | the configuration file is always recorded, and a failure in a required step (parsing, name, content src) leaves the meta directory and search index as they were |
| Vfs.OptionalParts | src/impl/java/org/wyona/yarep/impl/repo/vfs/VirtualFileSystemRepository.java:101-127 | the optional steps keep the configuration file, name, content directory and Map; they fail exactly on a meta element without src, and then before writing anything |
| Vfs.Defaults | src/impl/java/org/wyona/yarep/impl/repo/vfs/VirtualFileSystemRepository.java:48-61 | a new repository's fields are all unset, the Map is empty, and the directory listing mime type is `application/xml` |
| Vfs.NameOf | src/impl/java/org/wyona/yarep/impl/repo/vfs/VirtualFileSystemRepository.java:88 | the name is found exactly when there is a `<name>` element with a value, and it is that value |
| Vfs.ContentSrcOf | src/impl/java/org/wyona/yarep/impl/repo/vfs/VirtualFileSystemRepository.java:90 | the content src is found exactly when there is a `<content>` element with a `src` attribute, and it is that attribute |
| Vfs.Complete | src/impl/java/org/wyona/yarep/impl/repo/vfs/VirtualFileSystemRepository.java:80-127 | a configuration readConfiguration accepts has been parsed, and has a `<name>` element with a value and a `<content>` element with `src` |
| Vfs.WithDirectory | src/impl/java/org/wyona/yarep/impl/repo/vfs/VirtualFileSystemRepository.java:112-116 | `alternative` and the mime type each become the `<directory>` attribute when it is there and otherwise keep their value; no other field changes |
| Vfs.WithSearchIndex | src/impl/java/org/wyona/yarep/impl/repo/vfs/VirtualFileSystemRepository.java:120-127 | with a `<search-index>` element, the search index is its `src`, or `index`, resolved against the configuration file; without one it keeps its value; no other field changes |
| Vfs.ConfiguredMeaning | src/impl/java/org/wyona/yarep/impl/repo/vfs/VirtualFileSystemRepository.java:80-142 | readConfiguration always records the configuration file; it succeeds exactly on a configuration with a name value, a content src, and a src on any meta element; the Map is replaced as soon as the content directory is known, even when a later step fails; on success the meta and search-index files are resolved against the configuration file, missing directory attributes keep the earlier values, and the search index src defaults to `index` |
| Vfs.AbsoluteContentDir | src/impl/java/org/wyona/yarep/impl/repo/vfs/VirtualFileSystemRepository.java:90-94 | an absolute content src is taken as is, whatever the configuration file's location |
| Vfs.VirtualFileSystemRepository.constructor | src/impl/java/org/wyona/yarep/impl/repo/vfs/VirtualFileSystemRepository.java:56-67 | a new repository has fallback off, no alternative, mime type `application/xml`, no directories and no id |
| Vfs.VirtualFileSystemRepository.Open | src/impl/java/org/wyona/yarep/impl/repo/vfs/VirtualFileSystemRepository.java:72-75 | the two-argument constructor succeeds exactly on a complete configuration, and the result is a fresh repository with that id, fallback off, and the configured fields; otherwise it throws the step's error |
| Vfs.VirtualFileSystemRepository.SetID | src/impl/java/org/wyona/yarep/impl/repo/vfs/VirtualFileSystemRepository.java:161-163 | the id is set and no other field changes |
| Vfs.VirtualFileSystemRepository.ReadConfiguration | src/impl/java/org/wyona/yarep/impl/repo/vfs/VirtualFileSystemRepository.java:80-100 | the new fields and the outcome are those of `Configured` on the old fields; the id and fallback are untouched |
| Vfs.VirtualFileSystemRepository.ReadOptionalParts | src/impl/java/org/wyona/yarep/impl/repo/vfs/VirtualFileSystemRepository.java:101-127 | the meta, directory and search-index steps change the fields as `OptionalParts` says, and a meta element without src throws |
| Vfs.VirtualFileSystemRepository.Lookup | src/impl/java/org/wyona/yarep/impl/repo/vfs/VirtualFileSystemRepository.java:315-329 | getNode succeeds exactly when the stripped path is in the Map; the node's path is the stripped path and its uid is that same string; otherwise NoSuchNode with the stripped path; fallback is not involved |
| Vfs.VirtualFileSystemRepository.Resolves | src/impl/java/org/wyona/yarep/impl/repo/vfs/VirtualFileSystemRepository.java:296-310 | existsNode is true for a mapped stripped path; otherwise it is true exactly when fallback is on and the file exists under the content directory |
| Vfs.VirtualFileSystemRepository.GetNode | src/impl/java/org/wyona/yarep/impl/repo/vfs/VirtualFileSystemRepository.java:315-329 | the method returns what `Lookup` describes |
| Vfs.VirtualFileSystemRepository.GetRootNode | src/impl/java/org/wyona/yarep/impl/repo/vfs/VirtualFileSystemRepository.java:344-346 | getRootNode is getNode of `/`; it succeeds exactly when `/` is mapped, with path and uid `/` |
| Vfs.VirtualFileSystemRepository.ExistsNode | src/impl/java/org/wyona/yarep/impl/repo/vfs/VirtualFileSystemRepository.java:296-310 | the answer is `Resolves`, and nothing is modified |
| Vfs.VirtualFileSystemRepository.Exists | src/impl/java/org/wyona/yarep/impl/repo/vfs/VirtualFileSystemRepository.java:197-199 | exists(path) answers as existsNode on the path's string |
| Vfs.VirtualFileSystemRepository.Delete | src/impl/java/org/wyona/yarep/impl/repo/vfs/VirtualFileSystemRepository.java:183-186 | delete returns true exactly when getNode succeeds, and the Map becomes `mapAfterDelete` of the old Map and the node's path, with every other field kept; otherwise it throws getNode's NoSuchNode and changes nothing |
| Vfs.VirtualFileSystemRepository.DeleteRecursive | src/impl/java/org/wyona/yarep/impl/repo/vfs/VirtualFileSystemRepository.java:191-195 | a recursive delete always throws "not implemented", whether or not the path exists, and changes nothing; a non-recursive one behaves as delete, answer and new state alike |
| Vfs.VirtualFileSystemRepository.GetChildren | src/impl/java/org/wyona/yarep/impl/repo/vfs/VirtualFileSystemRepository.java:201-209 | a fresh array as long as the node's children, with element i the path of child i; NoSuchNode when getNode fails |
| Vfs.VirtualFileSystemRepository.GetRevisions | src/impl/java/org/wyona/yarep/impl/repo/vfs/VirtualFileSystemRepository.java:235-243 | a fresh array with one name per revision, in the node's revision order; NoSuchNode when getNode fails |
| Vfs.TrailingSlashSameNode | src/impl/java/org/wyona/yarep/impl/repo/vfs/VirtualFileSystemRepository.java:316-328 | for a non-empty p that does not end in `/`, `getNode(p + "/")` and `getNode(p)` give the same node, or fail together |
| Vfs.ExistsAgreesWithGetNode | src/impl/java/org/wyona/yarep/impl/repo/vfs/VirtualFileSystemRepository.java:301-325 | a path getNode resolves always exists; with fallback off, exists holds exactly for the paths getNode resolves |
| Platform.IsAbsolute | src/core/java/org/wyona/yarep/core/RepositoryFactory.java:71 | the empty name is relative; a name is absolute when it starts with `/`, as `File.isAbsolute()` on Unix |
| Platform.Resolve | src/core/java/org/wyona/yarep/core/RepositoryFactory.java:71-75 | an absolute name is used as is; a relative one is placed in the directory of the base file |
| Platform.LegacyResolve | src/yarep/java/org/wyona/yarep/core/RepositoryFactory.java:45-49 | an absolute name is used as is; a relative one is placed in the directory of the base file by the older FileUtil class, a term distinct from `Resolve`'s |
| Platform.GetChild | src/impl/java/org/wyona/yarep/impl/repo/vfs/VirtualFileSystemRepository.java:101-102 | `getChild(name, false)` gives the element when it is there and null otherwise |
| Platform.GetAttribute | src/impl/java/org/wyona/yarep/impl/repo/vfs/VirtualFileSystemRepository.java:90 | `getAttribute(a)` gives the attribute, and fails when it is missing |
| Platform.GetAttributeOr | src/impl/java/org/wyona/yarep/impl/repo/vfs/VirtualFileSystemRepository.java:114-115 | `getAttribute(a, default)` gives the attribute when it is there and the default otherwise |
| Tokens.SplitAll | src/core/java/org/wyona/yarep/core/RepositoryFactory.java:55-56 | there is at least one piece and no piece contains a comma |
| Tokens.JoinSplitAll | src/core/java/org/wyona/yarep/core/RepositoryFactory.java:55-56 | joining the pieces with commas gives back the property value |
| Tokens.SplitAllJoin | src/core/java/org/wyona/yarep/core/RepositoryFactory.java:55-56 | splitting a comma-joined list of comma-free pieces gives back the pieces |
| Tokens.DropTrailingEmpty | src/core/java/org/wyona/yarep/core/RepositoryFactory.java:56 | a prefix of the pieces that does not end in an empty piece, with only empty pieces cut off |
| Tokens.Split | src/core/java/org/wyona/yarep/core/RepositoryFactory.java:56 | no token contains a comma, and a value without a comma is one token |
| Tokens.SplitJoin | src/yarep/java/org/wyona/yarep/core/RepositoryFactory.java:34 | a list of non-empty, comma-free tokens survives being joined and split |
| Tokens.SplitEmpty | src/core/java/org/wyona/yarep/core/RepositoryFactory.java:56-57 | an empty property value is one token, so the count is odd |
| Tokens.SplitTrailingComma | src/core/java/org/wyona/yarep/core/RepositoryFactory.java:56-57 | a trailing comma is ignored, and a lone comma gives no tokens |
| Lookup.FirstIndex | src/core/java/org/wyona/yarep/core/RepositoryFactory.java:130-131 | the position is at most the length; no earlier id matches; the position holds the id if it is in range; and it is the length exactly when the id is absent |
| Lookup.FirstIndexIs | src/core/java/org/wyona/yarep/core/RepositoryFactory.java:130-131 | a search that stops at the first match has found `FirstIndex` |
| Lookup.FirstIndexAppend | src/core/java/org/wyona/yarep/core/RepositoryFactory.java:183 | appending an id keeps the first position of every id already present, and puts a new id at the old length |
| Lookup.IdsOf | src/core/java/org/wyona/yarep/core/RepositoryFactory.java:105-111 | as many ids as records, id i being record i's `getID()`; both registries' id lists are this function |
| Lookup.FirstWith | src/core/java/org/wyona/yarep/core/RepositoryFactory.java:129-138 | a record is found exactly when some record has the id, and the one found sits at a position before which no record has the id; both registries' `newRepository(rid)` is this function |
| CoreFactory.LoadOne | src/core/java/org/wyona/yarep/core/RepositoryFactory.java:65-83 | a pair loads as an instance of the default class with the resolved configuration file, exactly when that class exists and accepts the file |
| CoreFactory.LoadAll | src/core/java/org/wyona/yarep/core/RepositoryFactory.java:63-90 | a successful load has one repository per pair, each of the default class; a failed one throws a missing-class or rejected-configuration exception |
| CoreFactory.LoadAllShape | src/core/java/org/wyona/yarep/core/RepositoryFactory.java:63-84 | with 2n tokens a successful load holds n repositories in order, repository i having id `tokens[2i]` and configuration `tokens[2i+1]` resolved against the properties file |
| CoreFactory.LoadAllSucceedsIff | src/core/java/org/wyona/yarep/core/RepositoryFactory.java:64-90 | the load succeeds exactly when every pair loads |
| CoreFactory.LoadAllStep | src/core/java/org/wyona/yarep/core/RepositoryFactory.java:64-84 | loading one more pair appends that pair's repository, or throws its exception |
| CoreFactory.LoadAllFailureSticks | src/core/java/org/wyona/yarep/core/RepositoryFactory.java:87-90 | once a pair throws, construction fails with that same exception; nothing after it is loaded |
| CoreFactory.DuplicateIdsFromConfiguration | src/core/java/org/wyona/yarep/core/RepositoryFactory.java:63-84 | `a,x.xml,a,y.xml` registers two repositories with id `a`, and lookup of `a` gives the first |
| CoreFactory.PropertyTokens | src/core/java/org/wyona/yarep/core/RepositoryFactory.java:49-56 | an unreadable properties file or a missing `configurations` property throws; a readable file with the property always succeeds, with the split property value as its tokens |
| CoreFactory.PropertiesURL | src/core/java/org/wyona/yarep/core/RepositoryFactory.java:42-47 | the properties file is found exactly when the class path has the resource, and is the file part (`getFile()`) of that resource's URL |
| CoreFactory.Load | src/core/java/org/wyona/yarep/core/RepositoryFactory.java:39-91 | a missing properties resource gives an empty registry without error; a property failure is passed on; an odd token count throws WrongNumberOfConfigParameters; an even count gives `LoadAll` of the tokens against the properties file, so `LoadAllShape` describes the registry |
| CoreFactory.ConfigFileFor | src/core/java/org/wyona/yarep/core/RepositoryFactory.java:160-163 | an absolute name is used as is; a relative one is looked up on the class path, and a missing resource throws |
| CoreFactory.ImplementationOf | src/core/java/org/wyona/yarep/core/RepositoryFactory.java:171-179 | the implementation class is the `class` attribute when present, else the default class |
| CoreFactory.Register | src/core/java/org/wyona/yarep/core/RepositoryFactory.java:153-190 | a taken id gives null; for a new id, a repository is made exactly when the configuration file is found and reads, its class loads, and the class accepts it; the repository then has that id, file and class; otherwise it throws the first failing step's exception (missing resource, unreadable configuration, missing class, rejected configuration) |
| CoreFactory.Registered | src/core/java/org/wyona/yarep/core/RepositoryFactory.java:180-184 | the list after a registration starts with the old list and grows by one element, the new repository, exactly when one was made |
| CoreFactory.RegisterAppends | src/core/java/org/wyona/yarep/core/RepositoryFactory.java:180-184 | after a registration the new id resolves to the new repository, every other id resolves as before, and the id list gains the new id at its end |
| CoreFactory.RegisterTwice | src/core/java/org/wyona/yarep/core/RepositoryFactory.java:154-157 | registering a taken id again returns null, leaves the list as it was, and the id still resolves to the first registration |
| CoreFactory.RepositoryFactory.constructor | src/core/java/org/wyona/yarep/core/RepositoryFactory.java:42-46 | the registry starts empty, with the properties URL recorded |
| CoreFactory.RepositoryFactory.Create | src/core/java/org/wyona/yarep/core/RepositoryFactory.java:39-92 | construction succeeds exactly when `Load` does, and the fresh registry then holds `Load`'s list and the properties URL; otherwise it throws `Load`'s exception |
| CoreFactory.RepositoryFactory.GetRepositoryIDs | src/core/java/org/wyona/yarep/core/RepositoryFactory.java:105-111 | a fresh array of the ids, in registration order |
| CoreFactory.RepositoryFactory.NewRepository | src/core/java/org/wyona/yarep/core/RepositoryFactory.java:129-138 | the first repository whose id is `rid`, or null |
| CoreFactory.RepositoryFactory.FirstRepository | src/core/java/org/wyona/yarep/core/RepositoryFactory.java:144-148 | element 0 when the list is non-empty, else null |
| CoreFactory.RepositoryFactory.Exists | src/core/java/org/wyona/yarep/core/RepositoryFactory.java:197-203 | true exactly when some registered repository has the id |
| CoreFactory.RepositoryFactory.NewRepositoryWithConfig | src/core/java/org/wyona/yarep/core/RepositoryFactory.java:153-190 | the answer is `Register` on the old list; the list gains that repository at its end when one is made, and is otherwise unchanged |
| YarepFactory.Entries | src/yarep/java/org/wyona/yarep/core/RepositoryFactory.java:38-54 | with 2n tokens there are exactly n slots, and slot i holds id `tokens[2i]` with configuration `tokens[2i+1]` resolved against the properties file |
| YarepFactory.PropertyTokens | src/yarep/java/org/wyona/yarep/core/RepositoryFactory.java:27-34 | tokens are available exactly when the properties resource exists, loads, and has a `configurations` property, and they are then the property value split as the core registry splits it |
| YarepFactory.Load | src/yarep/java/org/wyona/yarep/core/RepositoryFactory.java:26-60 | the array is left null exactly when the tokens are unavailable or odd in number; otherwise it holds `Entries` |
| YarepFactory.RepositoryFactory.FillSlots | src/yarep/java/org/wyona/yarep/core/RepositoryFactory.java:38-54 | the loop fills a fresh array with one slot per pair, slot i holding exactly `Entries`' element i |
| YarepFactory.RepositoryFactory.constructor | src/yarep/java/org/wyona/yarep/core/RepositoryFactory.java:26-60 | the constructor never throws; the array is null after a caught exception, else a fresh array holding `Load`'s slots |
| YarepFactory.RepositoryFactory.NewRepository | src/yarep/java/org/wyona/yarep/core/RepositoryFactory.java:78-84 | the first slot whose id is `rid`, or null; NullPointerException when the array is null |
| YarepFactory.RepositoryFactory.FirstRepository | src/yarep/java/org/wyona/yarep/core/RepositoryFactory.java:90-94 | slot 0 when there is one, else null; NullPointerException when the array is null |
| YarepFactory.RepositoryFactory.Exists | src/yarep/java/org/wyona/yarep/core/RepositoryFactory.java:126-132 | true exactly when some slot has the id; NullPointerException when the array is null |
| YarepFactory.RepositoryFactory.NewRepositoryWithConfig | src/yarep/java/org/wyona/yarep/core/RepositoryFactory.java:99-119 | null for a taken id or a relative name missing from the class path; otherwise a repository with id `rid` that the array still does not contain; NullPointerException when the array is null |
| Registries.MissingPropertiesFile | src/yarep/java/org/wyona/yarep/core/RepositoryFactory.java:26-30 | without the properties file the core registry is empty while the older one is null |
| Registries.OddTokenCount | src/yarep/java/org/wyona/yarep/core/RepositoryFactory.java:34-37 | an odd token count makes the core constructor throw, while the older one swallows the exception and keeps a null array |
| Registries.SameRegistrations | src/yarep/java/org/wyona/yarep/core/RepositoryFactory.java:38-54 | when both registries load, they list the same ids in the same order, one per pair; an absolute configuration name gives both the same file, and a relative one gives the same name in the properties file's directory under each registry's own FileUtil class, which are not claimed equal |

## Left out

- Lucene: the analyzer, the creation of the search index in readConfiguration (an index that cannot be created also makes readConfiguration throw), `search` and `searchProperty`. They belong to a foreign library.
- The node itself (`VirtualFileSystemNode`, `isCollection`, `isResource`, streams, readers and writers, `getSize`, `getLastModified`). The node class is not part of this model, so its children and revisions are abstract inputs.
- Vfs.VirtualFileSystemRepository.Delete: what the node's own `delete` does to the Map is the abstract `FileSystem.mapAfterDelete`, because the node class is not part of this model. Its effect on storage, and so on the other disk views (`fileExists`, child paths, revision names, which stay as they were), is not modelled, and neither are the exceptions the node's `delete` may throw.
- Vfs.VirtualFileSystemRepository.constructor: the model starts with an empty Map. The source leaves the Map null until readConfiguration runs, so a getNode before then throws `NullPointerException`.
- Vfs.VirtualFileSystemRepository.ReadConfiguration: assumes the Map implementation class `VFileSystemMapImpl` loads. Its paths are an abstract input of the content directory and the configuration file, the two arguments of `setPathsDir`.
- Stubs that only log or return null: `move`, `copy`, `getUID`, `getURI`, `getValidity`, `getContentLength`, `addSymbolicLink`, `getNodeByUUID`, `close`. The trivial getters and `toString` are left out too.
- `FileUtil.file` and `File.toString` normalisation (repeated or trailing separators, `..`), and Windows path rules. `isAbsolute` is the Unix rule.
- The core registry's `getParentFile().getAbsolutePath()` and the older one's `getParent()` are both taken as "the properties file's directory". The properties file is taken to come from a `file:` URL, whose path is absolute. A properties file inside a jar (a `jar:` URL, whose file part is not an absolute name, so that the core registry would prefix the working directory and the older one would not) is not modelled.
- Registries.SameRegistrations: the core registry places a relative name with `org.wyona.commons.io.FileUtil` and the older one with `org.wyona.util.FileUtil`. Neither class is part of this model, so the two results are distinct symbolic terms (`InDirOf`, `LegacyInDirOf`), and equal configuration files are claimed only for absolute names.
- Both registries hand out the live `Repository` objects they hold, and every lookup re-reads `getID()`. The model holds repositories as values, so a caller's later `setID` on a returned repository, which would change later `exists` and `newRepository` answers, is not captured.
- The core registry's public static `CONFIGURATION_FILE`: the constructor assigns it and reads it straight back for the class-path lookup, which the model does with the constructor's argument. Being static, it is shared by every factory, and a later factory's name shows up in an earlier one's log and `toString` text; that sharing is not modelled. Logging is left out everywhere.
- I/O failures other than a missing or unreadable file. Reflection is a choice among the names in `Environment.classes`.
- YarepFactory.RepositoryFactory.constructor: the older registry's `Repository` constructor is taken never to fail. `newRepository(rid, config)` calls it outside any try and declares no exception, so it can throw no checked exception. Runtime exceptions of that class are not modelled.
