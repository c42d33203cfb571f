/**
 * The repository registry of the core library (org.wyona.yarep.core.
 * RepositoryFactory): built from the `configurations` property of a
 * properties file found on the class path, kept as an ordered list, searched
 * by id, and extended by ad-hoc registration that refuses a taken id.
 */
module CoreFactory {
  import opened Wrappers
  import opened Platform
  import Tokens
  import Lookup

  const DefaultConfigurationFile: string := "yarep.properties"
  const DefaultRepositoryClass: string := "org.wyona.yarep.impl.DefaultRepository"
  const ConfigurationsKey: string := "configurations"
  const ClassAttribute: string := "class"

  /** A registered repository: its id, its configuration file and the class it is an instance of. */
  datatype Repo = Repo(id: string, configFile: FilePath, implementation: string)

  /** The causes of the RepositoryException a registry operation throws. */
  datatype Error =
    | UnreadableProperties(propertiesFile: string)
    | NoConfigurationsProperty
    | WrongNumberOfConfigParameters
    | NoSuchResource(name: string)
    | UnreadableConfiguration(file: FilePath)
    | NoSuchClass(name: string)
    | ConfigurationRejected(implementation: string, file: FilePath)

  function RepoId(r: Repo): string
  {
    r.id
  }

  /** getRepositoryIDs: the ids in registration order. */
  function Ids(rs: seq<Repo>): seq<string>
  {
    Lookup.IdsOf(rs, RepoId)
  }

  /** exists(rid). */
  predicate HasId(rs: seq<Repo>, rid: string)
  {
    rid in Ids(rs)
  }

  /** newRepository(rid): the first repository with that id, or null. */
  function FirstWithId(rs: seq<Repo>, rid: string): Option<Repo>
  {
    Lookup.FirstWith(rs, RepoId, rid)
  }

  /** One pair of the configuration: an instance of the default class reading the resolved file. */
  function LoadOne(id: string, configFilename: string, propsFile: FilePath, env: Environment): (r: Result<Repo, Error>)
    ensures r.Success? ==> r.value == Repo(id, Resolve(propsFile, configFilename), DefaultRepositoryClass)
    ensures r.Success? <==> DefaultRepositoryClass in env.classes && env.accepts(DefaultRepositoryClass, Resolve(propsFile, configFilename))
  {
    var configFile := Resolve(propsFile, configFilename);
    if DefaultRepositoryClass !in env.classes then Failure(NoSuchClass(DefaultRepositoryClass))
    else if !env.accepts(DefaultRepositoryClass, configFile) then Failure(ConfigurationRejected(DefaultRepositoryClass, configFile))
    else Success(Repo(id, configFile, DefaultRepositoryClass))
  }

  /** The pairs of `tokens` loaded in order; the first pair that fails fails the whole load. */
  function LoadAll(tokens: seq<string>, propsFile: FilePath, env: Environment): (r: Result<seq<Repo>, Error>)
    requires |tokens| % 2 == 0
    // one repository per pair, each an instance of the default class
    ensures r.Success? ==> |r.value| == |tokens| / 2
    ensures r.Success? ==> forall i :: 0 <= i < |r.value| ==> r.value[i].implementation == DefaultRepositoryClass
    // the exceptions are those of LoadOne: a missing class or a rejected configuration
    ensures r.Failure? ==> r.error.NoSuchClass? || r.error.ConfigurationRejected?
    decreases |tokens|
  {
    if tokens == [] then Success([])
    else
      match LoadAll(tokens[..|tokens| - 2], propsFile, env)
      case Failure(e) => Failure(e)
      case Success(rs) =>
        match LoadOne(tokens[|tokens| - 2], tokens[|tokens| - 1], propsFile, env)
        case Failure(e) => Failure(e)
        case Success(r) => Success(rs + [r])
  }

  /** The tokens of the `configurations` property of a properties file. */
  function PropertyTokens(propsFile: string, env: Environment): (r: Result<seq<string>, Error>)
    ensures propsFile !in env.properties ==> r == Failure(UnreadableProperties(propsFile))
    ensures propsFile in env.properties && ConfigurationsKey !in env.properties[propsFile] ==> r == Failure(NoConfigurationsProperty)
    ensures propsFile in env.properties && ConfigurationsKey in env.properties[propsFile] ==>
      r == Success(Tokens.Split(env.properties[propsFile][ConfigurationsKey]))
  {
    if propsFile !in env.properties then Failure(UnreadableProperties(propsFile))
    else if ConfigurationsKey !in env.properties[propsFile] then Failure(NoConfigurationsProperty)
    else Success(Tokens.Split(env.properties[propsFile][ConfigurationsKey]))
  }

  /** The file part of the URL the constructor finds for the properties file on the class path, or null. */
  function PropertiesURL(configurationFile: string, env: Environment): (url: Option<string>)
    ensures url.Some? <==> configurationFile in env.resources
    ensures url.Some? ==> url.value == env.resources[configurationFile]
  {
    if configurationFile in env.resources then Some(env.resources[configurationFile]) else None
  }

  /** The registry the constructor builds, or the exception it throws. */
  function Load(configurationFile: string, env: Environment): (r: Result<seq<Repo>, Error>)
    ensures PropertiesURL(configurationFile, env).None? ==> r == Success([])
    ensures PropertiesURL(configurationFile, env).Some? ==>
      var t := PropertyTokens(PropertiesURL(configurationFile, env).value, env);
      && (t.Failure? ==> r == Failure(t.error))
      && (t.Success? && |t.value| % 2 != 0 ==> r == Failure(WrongNumberOfConfigParameters))
      // an even count loads the pairs, resolving each file against the properties file
      && (t.Success? && |t.value| % 2 == 0 ==>
            r == LoadAll(t.value, Named(PropertiesURL(configurationFile, env).value), env))
  {
    match PropertiesURL(configurationFile, env)
    case None => Success([])
    case Some(url) =>
      match PropertyTokens(url, env)
      case Failure(e) => Failure(e)
      case Success(tokens) =>
        if |tokens| % 2 != 0 then Failure(WrongNumberOfConfigParameters)
        else LoadAll(tokens, Named(url), env)
  }

  /** A successful load holds one repository per pair, in order: id `tokens[2i]`, configuration `tokens[2i+1]` resolved. */
  lemma {:induction false} LoadAllShape(tokens: seq<string>, propsFile: FilePath, env: Environment)
    requires |tokens| % 2 == 0
    requires LoadAll(tokens, propsFile, env).Success?
    ensures var rs := LoadAll(tokens, propsFile, env).value;
      && |rs| == |tokens| / 2
      && forall i :: 0 <= i < |rs| ==>
           rs[i] == Repo(tokens[2 * i], Resolve(propsFile, tokens[2 * i + 1]), DefaultRepositoryClass)
    decreases |tokens|
  {
    if tokens != [] {
      var front := tokens[..|tokens| - 2];
      LoadAllShape(front, propsFile, env);
      var rs := LoadAll(tokens, propsFile, env).value;
      var frontRs := LoadAll(front, propsFile, env).value;
      forall i | 0 <= i < |rs|
        ensures rs[i] == Repo(tokens[2 * i], Resolve(propsFile, tokens[2 * i + 1]), DefaultRepositoryClass)
      {
        if i < |frontRs| {
          assert rs[i] == frontRs[i];
          assert front[2 * i] == tokens[2 * i] && front[2 * i + 1] == tokens[2 * i + 1];
        }
      }
    }
  }

  /** The load succeeds exactly when the default class exists (or nothing is loaded) and accepts every configuration file. */
  lemma {:induction false} LoadAllSucceedsIff(tokens: seq<string>, propsFile: FilePath, env: Environment)
    requires |tokens| % 2 == 0
    ensures LoadAll(tokens, propsFile, env).Success? <==>
      forall i :: 0 <= i < |tokens| / 2 ==> LoadOne(tokens[2 * i], tokens[2 * i + 1], propsFile, env).Success?
    decreases |tokens|
  {
    if tokens != [] {
      var front := tokens[..|tokens| - 2];
      LoadAllSucceedsIff(front, propsFile, env);
      forall i | 0 <= i < |front| / 2
        ensures front[2 * i] == tokens[2 * i] && front[2 * i + 1] == tokens[2 * i + 1]
      {
      }
      assert |tokens| / 2 == |front| / 2 + 1;
      assert tokens[|tokens| - 2] == tokens[2 * (|front| / 2)];
    }
  }

  /** Loading one pair more: the pair after the first `i` is loaded after them. */
  lemma LoadAllStep(tokens: seq<string>, i: nat, propsFile: FilePath, env: Environment)
    requires |tokens| % 2 == 0 && 2 * i + 2 <= |tokens|
    ensures LoadAll(tokens[..2 * i + 2], propsFile, env) ==
      match LoadAll(tokens[..2 * i], propsFile, env)
      case Failure(e) => Failure(e)
      case Success(rs) =>
        match LoadOne(tokens[2 * i], tokens[2 * i + 1], propsFile, env)
        case Failure(e) => Failure(e)
        case Success(r) => Success(rs + [r])
  {
    assert tokens[..2 * i + 2][..2 * i] == tokens[..2 * i];
  }

  /** Once a prefix of the pairs fails, the whole load fails with the same exception. */
  lemma {:induction false} LoadAllFailureSticks(tokens: seq<string>, k: nat, propsFile: FilePath, env: Environment)
    requires |tokens| % 2 == 0 && k % 2 == 0 && k <= |tokens|
    requires LoadAll(tokens[..k], propsFile, env).Failure?
    ensures LoadAll(tokens, propsFile, env) == LoadAll(tokens[..k], propsFile, env)
    decreases |tokens| - k
  {
    if k < |tokens| {
      var front := tokens[..|tokens| - 2];
      assert front[..k] == tokens[..k];
      LoadAllFailureSticks(front, k, propsFile, env);
    } else {
      assert tokens[..k] == tokens;
    }
  }

  /** Ids repeated in the configuration are all registered; lookup finds the first. */
  lemma DuplicateIdsFromConfiguration(propsFile: FilePath, env: Environment)
    requires DefaultRepositoryClass in env.classes
    requires env.accepts(DefaultRepositoryClass, InDirOf(propsFile, "x.xml"))
    requires env.accepts(DefaultRepositoryClass, InDirOf(propsFile, "y.xml"))
    ensures var rs := LoadAll(["a", "x.xml", "a", "y.xml"], propsFile, env);
      && rs.Success? && |rs.value| == 2 && rs.value[0].id == rs.value[1].id == "a"
      && FirstWithId(rs.value, "a") == Some(Repo("a", InDirOf(propsFile, "x.xml"), DefaultRepositoryClass))
  {
    var tokens := ["a", "x.xml", "a", "y.xml"];
    var first := Repo("a", InDirOf(propsFile, "x.xml"), DefaultRepositoryClass);
    var second := Repo("a", InDirOf(propsFile, "y.xml"), DefaultRepositoryClass);
    assert !IsAbsolute("x.xml") && !IsAbsolute("y.xml");
    assert LoadOne("a", "x.xml", propsFile, env) == Success(first);
    assert LoadOne("a", "y.xml", propsFile, env) == Success(second);
    assert tokens[..0] == [] && tokens[..4] == tokens;
    assert LoadAll(tokens[..0], propsFile, env) == Success([]);
    LoadAllStep(tokens, 0, propsFile, env);
    assert [] + [first] == [first];
    assert tokens[0] == "a" && tokens[1] == "x.xml" && tokens[2] == "a" && tokens[3] == "y.xml";
    assert LoadAll(tokens[..2], propsFile, env) == Success([first]);
    LoadAllStep(tokens, 1, propsFile, env);
    assert LoadAll(tokens[..4], propsFile, env) == Success([first] + [second]);
    assert [first] + [second] == [first, second];
    assert LoadAll(tokens, propsFile, env) == Success([first, second]);
    assert Ids([first, second]) == ["a", "a"];
  }

  /** The configuration file newRepository(rid, configFile) reads: absolute as is, otherwise the class-path resource. */
  function ConfigFileFor(configFile: string, env: Environment): (f: Result<FilePath, Error>)
    ensures IsAbsolute(configFile) ==> f == Success(Named(configFile))
    ensures !IsAbsolute(configFile) && configFile !in env.resources ==> f == Failure(NoSuchResource(configFile))
    ensures !IsAbsolute(configFile) && configFile in env.resources ==> f == Success(Named(env.resources[configFile]))
  {
    if IsAbsolute(configFile) then Success(Named(configFile))
    else if configFile in env.resources then Success(Named(env.resources[configFile]))
    else Failure(NoSuchResource(configFile))
  }

  /** The class named by the configuration's `class` attribute, or the default class. */
  function ImplementationOf(c: Configuration): (name: string)
    ensures ClassAttribute in c.attributes ==> name == c.attributes[ClassAttribute]
    ensures ClassAttribute !in c.attributes ==> name == DefaultRepositoryClass
  {
    if ClassAttribute in c.attributes then c.attributes[ClassAttribute] else DefaultRepositoryClass
  }

  /** newRepository(rid, configFile) on the list `rs`: null for a taken id, else the new repository or an exception. */
  function Register(rs: seq<Repo>, rid: string, configFile: string, env: Environment): (r: Result<Option<Repo>, Error>)
    ensures HasId(rs, rid) ==> r == Success(None)
    ensures !HasId(rs, rid) && r.Success? ==> r.value.Some? && r.value.value.id == rid
    ensures r.Success? && r.value.Some? ==>
      var file := ConfigFileFor(configFile, env);
      && file.Success? && file.value in env.configurations
      && r.value.value.configFile == file.value
      && r.value.value.implementation == ImplementationOf(env.configurations[file.value])
      && r.value.value.implementation in env.classes
      && env.accepts(r.value.value.implementation, file.value)
    // and conversely: a free id whose configuration reads, names a loadable class and is accepted gives a repository
    ensures !HasId(rs, rid) && ConfigFileFor(configFile, env).Success? ==>
      var file := ConfigFileFor(configFile, env).value;
      file in env.configurations && ImplementationOf(env.configurations[file]) in env.classes
        && env.accepts(ImplementationOf(env.configurations[file]), file) ==>
      r == Success(Some(Repo(rid, file, ImplementationOf(env.configurations[file]))))
    // the other failures, each with its cause
    ensures !HasId(rs, rid) && ConfigFileFor(configFile, env).Failure? ==> r == Failure(ConfigFileFor(configFile, env).error)
    ensures !HasId(rs, rid) && ConfigFileFor(configFile, env).Success? ==>
      var file := ConfigFileFor(configFile, env).value;
      && (file !in env.configurations ==> r == Failure(UnreadableConfiguration(file)))
      && (file in env.configurations && ImplementationOf(env.configurations[file]) !in env.classes ==>
            r == Failure(NoSuchClass(ImplementationOf(env.configurations[file]))))
      && (file in env.configurations && ImplementationOf(env.configurations[file]) in env.classes
            && !env.accepts(ImplementationOf(env.configurations[file]), file) ==>
            r == Failure(ConfigurationRejected(ImplementationOf(env.configurations[file]), file)))
  {
    if HasId(rs, rid) then Success(None)
    else
      match ConfigFileFor(configFile, env)
      case Failure(e) => Failure(e)
      case Success(file) =>
        if file !in env.configurations then Failure(UnreadableConfiguration(file))
        else
          var implementation := ImplementationOf(env.configurations[file]);
          if implementation !in env.classes then Failure(NoSuchClass(implementation))
          else if !env.accepts(implementation, file) then Failure(ConfigurationRejected(implementation, file))
          else Success(Some(Repo(rid, file, implementation)))
  }

  /** The list after newRepository(rid, configFile) answered `r`: one more element exactly when a repository was made. */
  function Registered(rs: seq<Repo>, r: Result<Option<Repo>, Error>): (after: seq<Repo>)
    // the list only grows at its end, and by one element exactly when a repository was made
    ensures rs <= after
    ensures |after| == |rs| + (if r.Success? && r.value.Some? then 1 else 0)
    ensures r.Success? && r.value.Some? ==> after[|rs|] == r.value.value
  {
    if r.Success? && r.value.Some? then rs + [r.value.value] else rs
  }

  /**
   * After a successful registration the new id resolves to the new
   * repository, every other id resolves as before, and the id list has the
   * new id at its end.
   */
  lemma RegisterAppends(rs: seq<Repo>, rid: string, configFile: string, env: Environment)
    requires Register(rs, rid, configFile, env).Success? && Register(rs, rid, configFile, env).value.Some?
    ensures var after := Registered(rs, Register(rs, rid, configFile, env));
      && FirstWithId(after, rid) == Register(rs, rid, configFile, env).value
      && Ids(after) == Ids(rs) + [rid]
      && forall other :: other != rid ==> FirstWithId(after, other) == FirstWithId(rs, other)
  {
    var x := Register(rs, rid, configFile, env).value.value;
    var after := rs + [x];
    assert Ids(after) == Ids(rs) + [rid];
    Lookup.FirstIndexAppend(Ids(rs), rid, rid);
    forall other | other != rid
      ensures FirstWithId(after, other) == FirstWithId(rs, other)
    {
      Lookup.FirstIndexAppend(Ids(rs), rid, other);
    }
  }

  /** Registering a taken id a second time is refused, and the id still resolves to the first registration. */
  lemma RegisterTwice(rs: seq<Repo>, rid: string, first: string, second: string, env: Environment)
    requires Register(rs, rid, first, env).Success? && Register(rs, rid, first, env).value.Some?
    ensures var after := Registered(rs, Register(rs, rid, first, env));
      && Register(after, rid, second, env) == Success(None)
      && Registered(after, Register(after, rid, second, env)) == after
      && FirstWithId(after, rid) == Register(rs, rid, first, env).value
  {
    RegisterAppends(rs, rid, first, env);
  }

  class RepositoryFactory {
    /** The registered repositories, in registration order. */
    var repositories: seq<Repo>
    const propertiesURL: Option<string>

    constructor (propertiesURL: Option<string>)
      ensures this.propertiesURL == propertiesURL && repositories == []
    {
      this.propertiesURL := propertiesURL;
      repositories := [];
    }

    /** The constructor RepositoryFactory(configurationFile); the no-argument one passes DefaultConfigurationFile. */
    static method Create(configurationFile: string, env: Environment) returns (r: Result<RepositoryFactory, Error>)
      ensures r.Success? <==> Load(configurationFile, env).Success?
      ensures r.Failure? ==> r.error == Load(configurationFile, env).error
      ensures r.Success? ==> && fresh(r.value)
                             && r.value.repositories == Load(configurationFile, env).value
                             && r.value.propertiesURL == PropertiesURL(configurationFile, env)
    {
      var url := PropertiesURL(configurationFile, env);
      if url.None? {
        var empty := new RepositoryFactory(None);
        return Success(empty);
      }
      var tokens := PropertyTokens(url.value, env);
      if tokens.Failure? {
        return Failure(tokens.error);
      }
      var t := tokens.value;
      if |t| % 2 != 0 {
        return Failure(WrongNumberOfConfigParameters);
      }
      var propsFile := Named(url.value);
      var factory := new RepositoryFactory(url);
      var i := 0;
      while i < |t| / 2
        invariant 0 <= i <= |t| / 2
        invariant LoadAll(t[..2 * i], propsFile, env) == Success(factory.repositories)
        invariant factory.propertiesURL == url
      {
        LoadAllStep(t, i, propsFile, env);
        var repoID := t[2 * i];
        var configFilename := t[2 * i + 1];
        var configFile := Resolve(propsFile, configFilename);
        if DefaultRepositoryClass !in env.classes {
          LoadAllFailureSticks(t, 2 * i + 2, propsFile, env);
          return Failure(NoSuchClass(DefaultRepositoryClass));
        }
        if !env.accepts(DefaultRepositoryClass, configFile) {
          LoadAllFailureSticks(t, 2 * i + 2, propsFile, env);
          return Failure(ConfigurationRejected(DefaultRepositoryClass, configFile));
        }
        factory.repositories := factory.repositories + [Repo(repoID, configFile, DefaultRepositoryClass)];
        i := i + 1;
      }
      assert t[..2 * i] == t;
      return Success(factory);
    }

    method GetRepositoryIDs() returns (ids: array<string>)
      ensures fresh(ids) && ids[..] == Ids(repositories)
    {
      ids := new string[|repositories|];
      for i := 0 to |repositories|
        invariant ids[..i] == Ids(repositories)[..i]
      {
        ids[i] := repositories[i].id;
      }
    }

    /** newRepository(rid). */
    method NewRepository(rid: string) returns (r: Option<Repo>)
      ensures r == FirstWithId(repositories, rid)
    {
      for i := 0 to |repositories|
        invariant forall j :: 0 <= j < i ==> repositories[j].id != rid
      {
        if repositories[i].id == rid {
          Lookup.FirstIndexIs(Ids(repositories), rid, i);
          return Some(repositories[i]);
        }
      }
      Lookup.FirstIndexIs(Ids(repositories), rid, |repositories|);
      return None;
    }

    method FirstRepository() returns (r: Option<Repo>)
      ensures r.Some? <==> |repositories| > 0
      ensures r.Some? ==> r.value == repositories[0]
    {
      if |repositories| > 0 {
        return Some(repositories[0]);
      }
      return None;
    }

    /** exists(rid). */
    method Exists(rid: string) returns (b: bool)
      ensures b <==> exists i :: 0 <= i < |repositories| && repositories[i].id == rid
      ensures b == HasId(repositories, rid)
    {
      for i := 0 to |repositories|
        invariant forall j :: 0 <= j < i ==> repositories[j].id != rid
      {
        if repositories[i].id == rid {
          return true;
        }
      }
      return false;
    }

    /** newRepository(rid, configFile): registers a repository unless the id is taken. */
    method NewRepositoryWithConfig(rid: string, configFile: string, env: Environment) returns (r: Result<Option<Repo>, Error>)
      modifies this
      ensures r == Register(old(repositories), rid, configFile, env)
      ensures repositories == Registered(old(repositories), r)
    {
      var taken := Exists(rid);
      if taken {
        return Success(None);
      }
      var file := ConfigFileFor(configFile, env);
      if file.Failure? {
        return Failure(file.error);
      }
      if file.value !in env.configurations {
        return Failure(UnreadableConfiguration(file.value));
      }
      var config := env.configurations[file.value];
      var implementation := ImplementationOf(config);
      if implementation !in env.classes {
        return Failure(NoSuchClass(implementation));
      }
      if !env.accepts(implementation, file.value) {
        return Failure(ConfigurationRejected(implementation, file.value));
      }
      var repository := Repo(rid, file.value, implementation);
      repositories := repositories + [repository];
      return Success(Some(repository));
    }
  }
}
