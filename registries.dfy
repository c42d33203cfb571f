/**
 * The two registries read the same properties file the same way but
 * promise different things: the core one fails on an odd token count and is
 * empty when the properties file is missing; the older one leaves its array
 * null in both cases. When both load, they hold the same ids in the same order.
 */
module Registries {
  import opened Wrappers
  import opened Platform
  import CoreFactory
  import YarepFactory

  /** With the default properties file missing, the core registry is empty and the older one is null. */
  lemma MissingPropertiesFile(env: Environment)
    requires CoreFactory.DefaultConfigurationFile !in env.resources
    ensures CoreFactory.Load(CoreFactory.DefaultConfigurationFile, env) == Success([])
    ensures YarepFactory.Load(env) == None
  {
  }

  /** An odd number of tokens: the core constructor throws, the older one swallows the exception. */
  lemma OddTokenCount(env: Environment)
    requires YarepFactory.PropertyTokens(env).Some? && |YarepFactory.PropertyTokens(env).value| % 2 != 0
    ensures CoreFactory.Load(CoreFactory.DefaultConfigurationFile, env) == Failure(CoreFactory.WrongNumberOfConfigParameters)
    ensures YarepFactory.Load(env) == None
  {
  }

  /**
   * When both load, the core list and the older array list the same ids.
   * An absolute configuration name gives both the same file; a relative one
   * is the same name in the properties file's directory, placed by a
   * different FileUtil class in each, so the two files are not claimed equal.
   */
  lemma SameRegistrations(env: Environment)
    requires CoreFactory.Load(CoreFactory.DefaultConfigurationFile, env).Success?
    requires YarepFactory.Load(env).Some?
    ensures var core := CoreFactory.Load(CoreFactory.DefaultConfigurationFile, env).value;
            var older := YarepFactory.Load(env).value;
            var tokens := YarepFactory.PropertyTokens(env).value;
            var props := Named(env.resources[CoreFactory.DefaultConfigurationFile]);
      && CoreFactory.Ids(core) == YarepFactory.Ids(older)
      && |core| == |older| == |tokens| / 2
      && (forall i :: 0 <= i < |core| ==>
            (core[i].configFile == older[i].configFile <==> IsAbsolute(tokens[2 * i + 1])))
      && (forall i :: 0 <= i < |core| && !IsAbsolute(tokens[2 * i + 1]) ==>
            && core[i].configFile == InDirOf(props, tokens[2 * i + 1])
            && older[i].configFile == LegacyInDirOf(props, tokens[2 * i + 1]))
  {
    var url := env.resources[CoreFactory.DefaultConfigurationFile];
    var tokens := YarepFactory.PropertyTokens(env).value;
    assert CoreFactory.PropertyTokens(url, env) == Success(tokens);
    CoreFactory.LoadAllShape(tokens, Named(url), env);
  }
}
