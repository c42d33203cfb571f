/**
 * The parts of the Java platform and of the libraries that the repository
 * code leans on, reduced to what the code observes of them:
 * file names (java.io.File and FileUtil.file), class-path resources and
 * properties files, and parsed Avalon configuration trees.
 */
module Platform {
  import opened Wrappers

  /** `new File(name).isAbsolute()` on a Unix-like system. */
  predicate IsAbsolute(name: string)
    // the empty name is relative: `new File("")` has no root
    ensures IsAbsolute(name) ==> name != ""
  {
    |name| > 0 && name[0] == '/'
  }

  /**
   * A file as the code builds it: `new File(path)`, or a name placed in the
   * directory of `base` by one of the two FileUtil classes the code uses.
   * Their own normalisation is not modelled, so a resolved name stays
   * symbolic, and the two are kept apart.
   */
  datatype FilePath =
    | Named(path: string)
    | InDirOf(base: FilePath, name: string)        // org.wyona.commons.io.FileUtil.file
    | LegacyInDirOf(base: FilePath, name: string)  // org.wyona.util.FileUtil.file

  /**
   * The idiom every configuration reader here uses for a file name read from
   * a configuration: an absolute name is taken as is, a relative one is
   * looked up in the directory of the file the configuration came from.
   */
  function Resolve(base: FilePath, name: string): (f: FilePath)
    ensures f.Named? <==> IsAbsolute(name)
    ensures f.Named? ==> f.path == name
    ensures !f.Named? ==> f.InDirOf? && f.base == base && f.name == name
  {
    if IsAbsolute(name) then Named(name) else InDirOf(base, name)
  }

  /** The same idiom in the older registry, which places a relative name with org.wyona.util.FileUtil. */
  function LegacyResolve(base: FilePath, name: string): (f: FilePath)
    ensures f.Named? <==> IsAbsolute(name)
    ensures f.Named? ==> f.path == name
    ensures !f.Named? ==> f.LegacyInDirOf? && f.base == base && f.name == name
  {
    if IsAbsolute(name) then Named(name) else LegacyInDirOf(base, name)
  }

  /** An element below the root of an Avalon configuration. */
  datatype Element = Element(value: Option<string>, attributes: map<string, string>)

  /** A parsed Avalon configuration: the root's attributes and its child elements by name. */
  datatype Configuration = Configuration(attributes: map<string, string>, children: map<string, Element>)

  /** `config.getChild(name, false)`: the child element, or `null`. */
  function GetChild(c: Configuration, name: string): (e: Option<Element>)
    ensures e.Some? <==> name in c.children
    ensures e.Some? ==> e.value == c.children[name]
  {
    if name in c.children then Some(c.children[name]) else None
  }

  /** `element.getAttribute(a)`: `None` where Avalon throws a ConfigurationException. */
  function GetAttribute(e: Element, a: string): (v: Option<string>)
    ensures v.Some? <==> a in e.attributes
    ensures v.Some? ==> v.value == e.attributes[a]
  {
    if a in e.attributes then Some(e.attributes[a]) else None
  }

  /** `element.getAttribute(a, default)`: never throws. */
  function GetAttributeOr(e: Element, a: string, default: string): (v: string)
    ensures a in e.attributes ==> v == e.attributes[a]
    ensures a !in e.attributes ==> v == default
  {
    if a in e.attributes then e.attributes[a] else default
  }

  /**
   * What a repository process can see of its class path and its files:
   * the file behind each class-path resource (`getResource(name).getFile()`),
   * the properties files that load, the configuration files the Avalon
   * builder parses, the classes `Class.forName` finds and can instantiate,
   * and whether a class's `readConfiguration` accepts a given file.
   */
  datatype Environment = Environment(
    resources: map<string, string>,
    properties: map<string, map<string, string>>,
    configurations: map<FilePath, Configuration>,
    classes: set<string>,
    accepts: (string, FilePath) -> bool)
}
