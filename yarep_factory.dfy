/**
 * The older registry (src/yarep's org.wyona.yarep.core.RepositoryFactory):
 * the same `configurations` pairs, held in a fixed-size array. Its
 * constructor swallows every exception, so after a failure the array is
 * never assigned and every later lookup dereferences null; and ad-hoc
 * registration hands out a repository without recording it.
 */
module YarepFactory {
  import opened Wrappers
  import opened Platform
  import Tokens
  import Lookup

  const DefaultConfigurationFile: string := "yarep.properties"
  const ConfigurationsKey: string := "configurations"

  /** A repository of this variant: its id and its configuration file. */
  datatype Repository = Repository(id: string, configFile: FilePath)

  /** The unchecked exception a lookup on the unassigned array throws. */
  datatype Fault = NullPointerException

  function RepositoryId(r: Repository): string
  {
    r.id
  }

  function Ids(rs: seq<Repository>): seq<string>
  {
    Lookup.IdsOf(rs, RepositoryId)
  }

  predicate HasId(rs: seq<Repository>, rid: string)
  {
    rid in Ids(rs)
  }

  /** The first repository with that id, or null. */
  function FirstWithId(rs: seq<Repository>, rid: string): Option<Repository>
  {
    Lookup.FirstWith(rs, RepositoryId, rid)
  }

  /** The array slots for an even list of tokens: slot i gets id `tokens[2i]` and configuration `tokens[2i+1]` resolved. */
  function Entries(tokens: seq<string>, propsFile: FilePath): (rs: seq<Repository>)
    requires |tokens| % 2 == 0
    ensures |rs| == |tokens| / 2
    ensures forall i :: 0 <= i < |rs| ==> rs[i] == Repository(tokens[2 * i], LegacyResolve(propsFile, tokens[2 * i + 1]))
    decreases |tokens|
  {
    if tokens == [] then []
    else
      var front := tokens[..|tokens| - 2];
      assert forall i :: 0 <= i < |front| ==> front[i] == tokens[i];
      Entries(front, propsFile) + [Repository(tokens[|tokens| - 2], LegacyResolve(propsFile, tokens[|tokens| - 1]))]
  }

  /** The tokens of the `configurations` property, or None where the try block throws (no file, no property). */
  function PropertyTokens(env: Environment): (t: Option<seq<string>>)
    ensures t.Some? <==> && DefaultConfigurationFile in env.resources
                         && env.resources[DefaultConfigurationFile] in env.properties
                         && ConfigurationsKey in env.properties[env.resources[DefaultConfigurationFile]]
    // the same split of the same property as the core registry
    ensures t.Some? ==> t.value == Tokens.Split(env.properties[env.resources[DefaultConfigurationFile]][ConfigurationsKey])
  {
    if DefaultConfigurationFile !in env.resources then None
    else
      var url := env.resources[DefaultConfigurationFile];
      if url !in env.properties || ConfigurationsKey !in env.properties[url] then None
      else Some(Tokens.Split(env.properties[url][ConfigurationsKey]))
  }

  /** The array the constructor assigns, or None where it leaves the field null. */
  function Load(env: Environment): (r: Option<seq<Repository>>)
    ensures r.None? <==> PropertyTokens(env).None? || |PropertyTokens(env).value| % 2 != 0
    ensures r.Some? ==> r.value == Entries(PropertyTokens(env).value, Named(env.resources[DefaultConfigurationFile]))
  {
    match PropertyTokens(env)
    case None => None
    case Some(tokens) =>
      if |tokens| % 2 != 0 then None
      else Some(Entries(tokens, Named(env.resources[DefaultConfigurationFile])))
  }

  class RepositoryFactory {
    /** Null when the constructor caught an exception. */
    var repositories: array?<Repository>

    /** The constructor never throws: whatever goes wrong is logged and the array stays null. */
    constructor (env: Environment)
      ensures Load(env).None? ==> repositories == null
      ensures Load(env).Some? ==> && repositories != null && fresh(repositories)
                                  && repositories[..] == Load(env).value
    {
      var tokens := PropertyTokens(env);
      if tokens.None? || |tokens.value| % 2 != 0 {
        repositories := null;
      } else {
        var slots := FillSlots(tokens.value, Named(env.resources[DefaultConfigurationFile]));
        repositories := slots;
      }
    }

    /** The constructor's loop: a fresh array with one slot per pair, filled in order. */
    static method FillSlots(t: seq<string>, propsFile: FilePath) returns (slots: array<Repository>)
      requires |t| % 2 == 0
      ensures fresh(slots) && slots[..] == Entries(t, propsFile)
    {
      slots := new Repository[|t| / 2];
      ghost var expected := Entries(t, propsFile);
      for i := 0 to |t| / 2
        invariant slots[..i] == expected[..i]
      {
        var repoID := t[2 * i];
        var configFilename := t[2 * i + 1];
        var configFile := LegacyResolve(propsFile, configFilename);
        slots[i] := Repository(repoID, configFile);
      }
      assert slots[..] == slots[..|t| / 2];
    }

    /** newRepository(rid). */
    method NewRepository(rid: string) returns (r: Result<Option<Repository>, Fault>)
      ensures repositories == null ==> r == Failure(NullPointerException)
      ensures repositories != null ==> r == Success(FirstWithId(repositories[..], rid))
    {
      if repositories == null {
        return Failure(NullPointerException);
      }
      for i := 0 to repositories.Length
        invariant forall j :: 0 <= j < i ==> repositories[j].id != rid
      {
        if repositories[i].id == rid {
          Lookup.FirstIndexIs(Ids(repositories[..]), rid, i);
          return Success(Some(repositories[i]));
        }
      }
      Lookup.FirstIndexIs(Ids(repositories[..]), rid, repositories.Length);
      return Success(None);
    }

    method FirstRepository() returns (r: Result<Option<Repository>, Fault>)
      ensures repositories == null ==> r == Failure(NullPointerException)
      ensures repositories != null && repositories.Length > 0 ==> r == Success(Some(repositories[0]))
      ensures repositories != null && repositories.Length == 0 ==> r == Success(None)
    {
      if repositories == null {
        return Failure(NullPointerException);
      }
      if repositories.Length > 0 {
        return Success(Some(repositories[0]));
      }
      return Success(None);
    }

    /** exists(rid). */
    method Exists(rid: string) returns (r: Result<bool, Fault>)
      ensures repositories == null ==> r == Failure(NullPointerException)
      ensures repositories != null ==>
        r == Success(exists i :: 0 <= i < repositories.Length && repositories[i].id == rid)
      ensures repositories != null ==> r == Success(HasId(repositories[..], rid))
    {
      if repositories == null {
        return Failure(NullPointerException);
      }
      for i := 0 to repositories.Length
        invariant forall j :: 0 <= j < i ==> repositories[j].id != rid
      {
        if repositories[i].id == rid {
          assert Ids(repositories[..])[i] == rid;
          return Success(true);
        }
      }
      return Success(false);
    }

    /**
     * newRepository(rid, config): null for a taken id or for a relative
     * name the class path does not have; otherwise a new repository that is
     * not put into the array (the method modifies nothing).
     */
    method NewRepositoryWithConfig(rid: string, config: string, env: Environment) returns (r: Result<Option<Repository>, Fault>)
      ensures repositories == null ==> r == Failure(NullPointerException)
      ensures repositories != null && HasId(repositories[..], rid) ==> r == Success(None)
      ensures repositories != null && !HasId(repositories[..], rid) ==>
        r == Success(if IsAbsolute(config) then Some(Repository(rid, Named(config)))
                     else if config in env.resources then Some(Repository(rid, Named(env.resources[config])))
                     else None)
      // the repository handed out is still unknown to the registry
      ensures r.Success? && r.value.Some? ==> repositories != null && !HasId(repositories[..], rid)
    {
      var taken := Exists(rid);
      if taken.Failure? {
        return Failure(taken.error);
      }
      if taken.value {
        return Success(None);
      }
      if !IsAbsolute(config) {
        if config !in env.resources {
          // configURL.getFile() throws inside the try; the catch answers null
          return Success(None);
        }
        var configFile := Named(env.resources[config]);
        return Success(Some(Repository(rid, configFile)));
      }
      return Success(Some(Repository(rid, Named(config))));
    }
  }
}
