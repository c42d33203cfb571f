/**
 * The node based file system repository (VirtualFileSystemRepository):
 * path resolution through the Map, node handles whose uid is the path,
 * the path-level operations (some of which delegate to the node), and the
 * reading of the repository configuration.
 */
module Vfs {
  import opened Wrappers
  import opened Platform

  /**
   * A node handle as getNode builds it: its path, its uid (the path itself)
   * and what the node reports of itself: the paths of its child nodes and
   * the names of its revisions, in the node's order.
   */
  datatype Node = Node(path: string, uid: string, children: seq<string>, revisions: seq<string>)

  /** The step at which reading a repository configuration fails. */
  datatype ConfigProblem =
    | Unparseable    // the configuration builder cannot read the file
    | NoName         // no <name> element, or one without a value
    | NoContentSrc   // no <content> element, or one without a src attribute
    | NoMetaSrc      // a <meta> element without a src attribute

  datatype Error =
    | NoSuchNode(path: string)                          // NoSuchNodeException
    | NotImplemented                                    // RepositoryException "Not implemented yet"
    | UnreadableConfiguration(problem: ConfigProblem)   // RepositoryException from readConfiguration

  /**
   * What the repository finds on disk, kept abstract: the paths the Map
   * implementation finds for a content directory and configuration file
   * (`setPathsDir(contentDir, configFile)`), whether the file
   * `contentDir + path` exists, each node's child paths and revision names,
   * and the Map's paths after the node at a path has deleted itself.
   */
  datatype FileSystem = FileSystem(
    mappedPaths: (FilePath, FilePath) -> set<string>,
    fileExists: (Option<FilePath>, string) -> bool,
    childPaths: string -> seq<string>,
    revisionNames: string -> seq<string>,
    mapAfterDelete: (set<string>, string) -> set<string>)

  const DefaultDirListingMimeType: string := "application/xml"
  const DefaultSearchIndex: string := "index"
  const Root: string := "/"

  predicate EndsWithSlash(p: string)
  {
    |p| > 0 && p[|p| - 1] == '/'
  }

  /** Removes one trailing slash, except from a path of a single character such as the root. */
  function StripTrailingSlash(p: string): (r: string)
    ensures r == p || (|p| > 1 && p == r + "/")
    ensures r != p <==> |p| > 1 && EndsWithSlash(p)
  {
    if |p| > 1 && EndsWithSlash(p) then p[..|p| - 1] else p
  }

  /** Appending one slash to a path that has none at its end is undone by stripping. */
  lemma StripAppendedSlash(p: string)
    requires p != "" && !EndsWithSlash(p)
    ensures StripTrailingSlash(p + "/") == p
    ensures StripTrailingSlash(p) == p
  {
    assert (p + "/")[..|p|] == p;
  }

  /** Stripping twice changes nothing more exactly when the path does not end in two slashes. */
  lemma StripIdempotentIff(p: string)
    ensures StripTrailingSlash(StripTrailingSlash(p)) == StripTrailingSlash(p)
        <==> !(|p| > 2 && p[|p| - 1] == '/' && p[|p| - 2] == '/')
  {
    if |p| > 2 && p[|p| - 1] == '/' && p[|p| - 2] == '/' {
      var once := StripTrailingSlash(p);
      assert once == p[..|p| - 1];
      assert |once| > 1 && EndsWithSlash(once);
    }
  }

  /** Only one slash goes: "/a//" resolves as "/a/", not as "/a". */
  lemma StripRemovesOnlyOne()
    ensures StripTrailingSlash("/a//") == "/a/"
    ensures StripTrailingSlash(StripTrailingSlash("/a//")) == "/a"
  {
    assert "/a//"[..3] == "/a/";
    assert "/a/"[..2] == "/a";
  }

  /** The repository fields that readConfiguration writes. */
  datatype Settings = Settings(
    configFile: Option<FilePath>,
    name: Option<string>,
    contentDir: Option<FilePath>,
    mapPaths: set<string>,
    metaDir: Option<FilePath>,
    alternative: Option<string>,
    dirListingMimeType: string,
    searchIndexFile: Option<FilePath>)

  /** The fields of a repository made with the no-argument constructor. */
  function Defaults(): (s: Settings)
    ensures s.configFile == None && s.name == None && s.contentDir == None && s.mapPaths == {}
    ensures s.metaDir == None && s.alternative == None && s.searchIndexFile == None
    ensures s.dirListingMimeType == DefaultDirListingMimeType
  {
    Settings(None, None, None, {}, None, None, DefaultDirListingMimeType, None)
  }

  /** The value of the <name> element, if there is one with a value. */
  function NameOf(c: Configuration): (n: Option<string>)
    ensures n.Some? <==> "name" in c.children && c.children["name"].value.Some?
    ensures n.Some? ==> n == c.children["name"].value
  {
    if "name" in c.children then c.children["name"].value else None
  }

  /** The src attribute of the <content> element, if both are there. */
  function ContentSrcOf(c: Configuration): (src: Option<string>)
    ensures src.Some? <==> "content" in c.children && "src" in c.children["content"].attributes
    ensures src.Some? ==> src.value == c.children["content"].attributes["src"]
  {
    if "content" in c.children then GetAttribute(c.children["content"], "src") else None
  }

  /** A configuration readConfiguration accepts: every element it needs, with every attribute it needs. */
  predicate Complete(parsed: Option<Configuration>)
    ensures Complete(parsed) ==> parsed.Some?
    ensures Complete(parsed) ==>
      && "name" in parsed.value.children && parsed.value.children["name"].value.Some?
      && "content" in parsed.value.children && "src" in parsed.value.children["content"].attributes
  {
    && parsed.Some?
    && NameOf(parsed.value).Some?
    && ContentSrcOf(parsed.value).Some?
    && ("meta" in parsed.value.children ==> "src" in parsed.value.children["meta"].attributes)
  }

  /**
   * The fields after readConfiguration(configFile) on fields `s`, and the
   * step that failed, if one did. The steps run in order and each failure
   * leaves the fields written by the earlier steps in place.
   */
  function Configured(s: Settings, configFile: FilePath, parsed: Option<Configuration>, fs: FileSystem)
    : (r: (Settings, Option<ConfigProblem>))
    ensures r.0.configFile == Some(configFile)
    ensures r.1.Some? && r.1.value != NoMetaSrc ==> r.0.metaDir == s.metaDir && r.0.searchIndexFile == s.searchIndexFile
  {
    var s1 := s.(configFile := Some(configFile));
    if parsed.None? then (s1, Some(Unparseable))
    else
      var c := parsed.value;
      if NameOf(c).None? then (s1, Some(NoName))
      else
        var s2 := s1.(name := NameOf(c));
        if ContentSrcOf(c).None? then (s2, Some(NoContentSrc))
        else
          var dir := Resolve(configFile, ContentSrcOf(c).value);
          var s3 := s2.(contentDir := Some(dir), mapPaths := fs.mappedPaths(dir, configFile));
          OptionalParts(s3, configFile, c)
  }

  /**
   * The steps after the content directory: the optional <meta>, whose src is
   * required once the element is there, then <directory> and <search-index>.
   */
  function OptionalParts(s: Settings, configFile: FilePath, c: Configuration): (r: (Settings, Option<ConfigProblem>))
    // the optional parts never touch the fields the required steps wrote
    ensures r.0.configFile == s.configFile && r.0.name == s.name
    ensures r.0.contentDir == s.contentDir && r.0.mapPaths == s.mapPaths
    // only a src-less <meta> fails, and it fails before anything is written
    ensures r.1.Some? <==> "meta" in c.children && "src" !in c.children["meta"].attributes
    ensures r.1.Some? ==> r == (s, Some(NoMetaSrc))
  {
    var meta := GetChild(c, "meta");
    if meta.Some? && GetAttribute(meta.value, "src").None? then (s, Some(NoMetaSrc))
    else
      var s1 := if meta.Some? then s.(metaDir := Some(Resolve(configFile, meta.value.attributes["src"]))) else s;
      (WithSearchIndex(WithDirectory(s1, GetChild(c, "directory")), configFile, GetChild(c, "search-index")), None)
  }

  /** The optional <directory> element: each attribute it lacks keeps the field's current value. */
  function WithDirectory(s: Settings, directory: Option<Element>): (r: Settings)
    ensures r.alternative == (if directory.Some? && "alternative" in directory.value.attributes
                              then Some(directory.value.attributes["alternative"]) else s.alternative)
    ensures r.dirListingMimeType == (if directory.Some? && "mime-type" in directory.value.attributes
                                     then directory.value.attributes["mime-type"] else s.dirListingMimeType)
    ensures r == s.(alternative := r.alternative, dirListingMimeType := r.dirListingMimeType)
  {
    if directory.None? then s
    else s.(alternative := if "alternative" in directory.value.attributes
                           then Some(directory.value.attributes["alternative"]) else s.alternative,
            dirListingMimeType := GetAttributeOr(directory.value, "mime-type", s.dirListingMimeType))
  }

  /** The optional <search-index> element, whose src defaults to "index". */
  function WithSearchIndex(s: Settings, configFile: FilePath, index: Option<Element>): (r: Settings)
    ensures index.None? ==> r.searchIndexFile == s.searchIndexFile
    ensures index.Some? && "src" in index.value.attributes ==>
      r.searchIndexFile == Some(Resolve(configFile, index.value.attributes["src"]))
    ensures index.Some? && "src" !in index.value.attributes ==>
      r.searchIndexFile == Some(Resolve(configFile, DefaultSearchIndex))
    ensures r == s.(searchIndexFile := r.searchIndexFile)
  {
    if index.None? then s
    else s.(searchIndexFile := Some(Resolve(configFile, GetAttributeOr(index.value, "src", DefaultSearchIndex))))
  }

  /**
   * What readConfiguration promises: the configuration file is always
   * recorded; it succeeds exactly on a complete configuration; the content
   * directory and the Map are set before the optional parts are looked at;
   * on success every file name is resolved against the configuration file,
   * and an optional element or attribute that is missing keeps the field's
   * earlier value (the search index's src defaults to "index").
   */
  lemma ConfiguredMeaning(s: Settings, configFile: FilePath, parsed: Option<Configuration>, fs: FileSystem)
    ensures Configured(s, configFile, parsed, fs).0.configFile == Some(configFile)
    ensures Configured(s, configFile, parsed, fs).1.None? <==> Complete(parsed)
    ensures parsed.None? ==> Configured(s, configFile, parsed, fs) == (s.(configFile := Some(configFile)), Some(Unparseable))
    // the Map is replaced as soon as the content directory is known, even if a later step fails
    ensures parsed.Some? && NameOf(parsed.value).Some? && ContentSrcOf(parsed.value).Some? ==>
      var r := Configured(s, configFile, parsed, fs).0;
      && r.name == NameOf(parsed.value)
      && r.contentDir == Some(Resolve(configFile, ContentSrcOf(parsed.value).value))
      && r.mapPaths == fs.mappedPaths(r.contentDir.value, configFile)
    ensures Complete(parsed) ==>
      var r := Configured(s, configFile, parsed, fs).0;
      var c := parsed.value;
      && r.metaDir == (if "meta" in c.children then Some(Resolve(configFile, c.children["meta"].attributes["src"])) else s.metaDir)
      && r.alternative == (if "directory" in c.children && "alternative" in c.children["directory"].attributes
                           then Some(c.children["directory"].attributes["alternative"]) else s.alternative)
      && r.dirListingMimeType == (if "directory" in c.children && "mime-type" in c.children["directory"].attributes
                                  then c.children["directory"].attributes["mime-type"] else s.dirListingMimeType)
      && r.searchIndexFile == (if "search-index" in c.children
                               then Some(Resolve(configFile, GetAttributeOr(c.children["search-index"], "src", DefaultSearchIndex)))
                               else s.searchIndexFile)
  {
  }

  class VirtualFileSystemRepository {
    var id: Option<string>
    var configFile: Option<FilePath>
    var name: Option<string>
    /** The Map: the set of paths that exist as nodes. */
    var mapPaths: set<string>
    /** Never assigned anywhere but at its declaration. */
    var fallback: bool
    var alternative: Option<string>
    var dirListingMimeType: string
    var contentDir: Option<FilePath>
    var metaDir: Option<FilePath>
    var searchIndexFile: Option<FilePath>
    const fs: FileSystem

    function Current(): Settings
      reads this
    {
      Settings(configFile, name, contentDir, mapPaths, metaDir, alternative, dirListingMimeType, searchIndexFile)
    }

    /** The no-argument constructor. */
    constructor (fs: FileSystem)
      ensures this.fs == fs && id == None && !fallback
      ensures Current() == Defaults()
    {
      this.fs := fs;
      id := None;
      configFile := None;
      name := None;
      mapPaths := {};
      fallback := false;
      alternative := None;
      dirListingMimeType := DefaultDirListingMimeType;
      contentDir := None;
      metaDir := None;
      searchIndexFile := None;
    }

    /** The constructor taking an id and a configuration file. */
    static method Open(id: string, configFile: FilePath, parsed: Option<Configuration>, fs: FileSystem)
      returns (r: Result<VirtualFileSystemRepository, Error>)
      ensures r.Success? <==> Complete(parsed)
      ensures r.Failure? ==> r.error == UnreadableConfiguration(Configured(Defaults(), configFile, parsed, fs).1.value)
      ensures r.Success? ==> && fresh(r.value) && r.value.fs == fs && r.value.id == Some(id) && !r.value.fallback
                             && r.value.Current() == Configured(Defaults(), configFile, parsed, fs).0
    {
      var repo := new VirtualFileSystemRepository(fs);
      repo.SetID(id);
      var outcome := repo.ReadConfiguration(configFile, parsed);
      if outcome.Failure? {
        return Failure(outcome.error);
      }
      return Success(repo);
    }

    method SetID(id: string)
      modifies this
      ensures this.id == Some(id)
      ensures Current() == old(Current()) && fallback == old(fallback)
    {
      this.id := Some(id);
    }

    /** readConfiguration: fills in the fields step by step; a step that fails throws. */
    method ReadConfiguration(configFile: FilePath, parsed: Option<Configuration>) returns (r: Result<(), Error>)
      modifies this
      ensures Current() == Configured(old(Current()), configFile, parsed, fs).0
      ensures r.Success? <==> Configured(old(Current()), configFile, parsed, fs).1.None?
      ensures r.Failure? ==> r.error == UnreadableConfiguration(Configured(old(Current()), configFile, parsed, fs).1.value)
      ensures id == old(id) && fallback == old(fallback)
    {
      this.configFile := Some(configFile);
      if parsed.None? {
        return Failure(UnreadableConfiguration(Unparseable));
      }
      var c := parsed.value;
      var nameChild := GetChild(c, "name");
      if nameChild.None? || nameChild.value.value.None? {
        return Failure(UnreadableConfiguration(NoName));
      }
      name := nameChild.value.value;
      var contentChild := GetChild(c, "content");
      if contentChild.None? || GetAttribute(contentChild.value, "src").None? {
        return Failure(UnreadableConfiguration(NoContentSrc));
      }
      var dir := Resolve(configFile, contentChild.value.attributes["src"]);
      contentDir := Some(dir);
      mapPaths := fs.mappedPaths(dir, configFile);
      r := ReadOptionalParts(configFile, c);
    }

    /** The part of readConfiguration after the Map is set up. */
    method ReadOptionalParts(configFile: FilePath, c: Configuration) returns (r: Result<(), Error>)
      modifies this
      ensures Current() == OptionalParts(old(Current()), configFile, c).0
      ensures r.Success? <==> OptionalParts(old(Current()), configFile, c).1.None?
      ensures r.Failure? ==> r.error == UnreadableConfiguration(OptionalParts(old(Current()), configFile, c).1.value)
      ensures id == old(id) && fallback == old(fallback)
    {
      var metaChild := GetChild(c, "meta");
      if metaChild.Some? {
        var src := GetAttribute(metaChild.value, "src");
        if src.None? {
          return Failure(UnreadableConfiguration(NoMetaSrc));
        }
        metaDir := Some(Resolve(configFile, src.value));
      }
      ghost var configured := Current();
      var directoryChild := GetChild(c, "directory");
      if directoryChild.Some? {
        if "alternative" in directoryChild.value.attributes {
          alternative := Some(directoryChild.value.attributes["alternative"]);
        }
        dirListingMimeType := GetAttributeOr(directoryChild.value, "mime-type", dirListingMimeType);
      }
      assert Current() == WithDirectory(configured, directoryChild);
      configured := Current();
      var indexChild := GetChild(c, "search-index");
      if indexChild.Some? {
        searchIndexFile := Some(Resolve(configFile, GetAttributeOr(indexChild.value, "src", DefaultSearchIndex)));
      }
      assert Current() == WithSearchIndex(configured, configFile, indexChild);
      return Success(());
    }

    /** What getNode(path) resolves to: a node handle for a mapped path, NoSuchNode otherwise. */
    function Lookup(path: string): (r: Result<Node, Error>)
      reads this
      ensures r.Success? <==> StripTrailingSlash(path) in mapPaths
      ensures r.Failure? ==> r.error == NoSuchNode(StripTrailingSlash(path))
      ensures r.Success? ==> && r.value.path == StripTrailingSlash(path)
                             && r.value.uid == r.value.path
                             && r.value.children == fs.childPaths(r.value.path)
                             && r.value.revisions == fs.revisionNames(r.value.path)
    {
      var p := StripTrailingSlash(path);
      if p in mapPaths then Success(Node(p, p, fs.childPaths(p), fs.revisionNames(p)))
      else Failure(NoSuchNode(p))
    }

    /** What existsNode(path) answers: the Map first, the content directory only in fallback mode. */
    function Resolves(path: string): (b: bool)
      reads this
      ensures StripTrailingSlash(path) in mapPaths ==> b
      ensures StripTrailingSlash(path) !in mapPaths ==>
        (b <==> fallback && fs.fileExists(contentDir, StripTrailingSlash(path)))
    {
      var p := StripTrailingSlash(path);
      if p in mapPaths then true else fallback && fs.fileExists(contentDir, p)
    }

    method GetNode(path: string) returns (r: Result<Node, Error>)
      ensures r == Lookup(path)
    {
      var p := path;
      if |p| > 1 && p[|p| - 1] == '/' {
        p := p[..|p| - 1];
      }
      if p in mapPaths {
        var uid := p;
        return Success(Node(p, uid, fs.childPaths(p), fs.revisionNames(p)));
      }
      return Failure(NoSuchNode(p));
    }

    method GetRootNode() returns (r: Result<Node, Error>)
      ensures r.Success? <==> Root in mapPaths
      ensures r.Success? ==> r.value.path == Root && r.value.uid == Root
      ensures r == Lookup(Root)
    {
      r := GetNode(Root);
    }

    method ExistsNode(path: string) returns (b: bool)
      ensures b == Resolves(path)
    {
      var p := path;
      if |p| > 1 && p[|p| - 1] == '/' {
        p := p[..|p| - 1];
      }
      if p in mapPaths {
        return true;
      } else if fallback {
        return fs.fileExists(contentDir, p);
      } else {
        return false;
      }
    }

    /** exists(Path): existsNode on the path's string. */
    method Exists(path: string) returns (b: bool)
      ensures b == Resolves(path)
    {
      b := ExistsNode(path);
    }

    /**
     * delete(Path): resolves the node and has it delete itself. What that
     * does to the Map is the abstract `fs.mapAfterDelete`; no other field
     * changes, and an unresolved path changes nothing.
     */
    method Delete(path: string) returns (r: Result<bool, Error>)
      modifies this
      ensures r.Success? <==> old(Lookup(path)).Success?
      ensures r.Success? ==> r.value
      ensures r.Failure? ==> r.error == old(Lookup(path)).error
      ensures r.Success? ==> Current() == old(Current()).(mapPaths := fs.mapAfterDelete(old(mapPaths), StripTrailingSlash(path)))
      ensures r.Failure? ==> Current() == old(Current())
      ensures id == old(id) && fallback == old(fallback)
    {
      var node := GetNode(path);
      if node.Failure? {
        return Failure(node.error);
      }
      mapPaths := fs.mapAfterDelete(mapPaths, node.value.path);
      return Success(true);
    }

    /** delete(Path, recursive): refuses recursive deletion before resolving anything. */
    method DeleteRecursive(path: string, recursive: bool) returns (r: Result<bool, Error>)
      modifies this
      ensures recursive ==> r == Failure(NotImplemented) && Current() == old(Current())
      ensures !recursive ==> (r.Success? <==> old(Lookup(path)).Success?)
      ensures !recursive && r.Success? ==> r.value
      ensures !recursive && r.Failure? ==> r.error == old(Lookup(path)).error
      ensures !recursive && r.Success? ==>
        Current() == old(Current()).(mapPaths := fs.mapAfterDelete(old(mapPaths), StripTrailingSlash(path)))
      ensures !recursive && r.Failure? ==> Current() == old(Current())
      ensures id == old(id) && fallback == old(fallback)
    {
      if recursive {
        return Failure(NotImplemented);
      }
      r := Delete(path);
    }

    /** getChildren(Path): the paths of the node's children, in the node's order. */
    method GetChildren(path: string) returns (r: Result<array<string>, Error>)
      ensures r.Success? <==> Lookup(path).Success?
      ensures r.Failure? ==> r.error == Lookup(path).error
      ensures r.Success? ==> fresh(r.value) && r.value[..] == Lookup(path).value.children
    {
      var found := GetNode(path);
      if found.Failure? {
        return Failure(found.error);
      }
      var childNodes := found.value.children;
      var childPaths := new string[|childNodes|];
      for i := 0 to |childNodes|
        invariant childPaths[..i] == childNodes[..i]
      {
        childPaths[i] := childNodes[i];
      }
      return Success(childPaths);
    }

    /** getRevisions(Path): the names of the node's revisions, in the node's order. */
    method GetRevisions(path: string) returns (r: Result<array<string>, Error>)
      ensures r.Success? <==> Lookup(path).Success?
      ensures r.Failure? ==> r.error == Lookup(path).error
      ensures r.Success? ==> fresh(r.value) && r.value[..] == Lookup(path).value.revisions
    {
      var found := GetNode(path);
      if found.Failure? {
        return Failure(found.error);
      }
      var revisions := found.value.revisions;
      var revisionNames := new string[|revisions|];
      for i := 0 to |revisions|
        invariant revisionNames[..i] == revisions[..i]
      {
        revisionNames[i] := revisions[i];
      }
      return Success(revisionNames);
    }
  }

  /** "/a/" and "/a" name the same node, and fail together. */
  lemma TrailingSlashSameNode(repo: VirtualFileSystemRepository, p: string)
    requires p != "" && !EndsWithSlash(p)
    ensures repo.Lookup(p + "/") == repo.Lookup(p)
  {
    StripAppendedSlash(p);
  }

  /** A node getNode returns always exists; without fallback, exists holds for nothing else. */
  lemma ExistsAgreesWithGetNode(repo: VirtualFileSystemRepository, p: string)
    ensures repo.Lookup(p).Success? ==> repo.Resolves(p)
    ensures !repo.fallback ==> (repo.Resolves(p) <==> repo.Lookup(p).Success?)
  {
  }

  /** A successful readConfiguration of an absolute content src ignores the configuration file's location. */
  lemma AbsoluteContentDir(s: Settings, configFile: FilePath, parsed: Option<Configuration>, fs: FileSystem)
    requires Complete(parsed) && IsAbsolute(ContentSrcOf(parsed.value).value)
    ensures Configured(s, configFile, parsed, fs).0.contentDir == Some(Named(ContentSrcOf(parsed.value).value))
  {
  }
}
