/** `ApplicationConfiguration`: the bean that builds the placeholder configurer from the
    configuration files found on the classpath. Its private copies of `loadConfigFiles`,
    `loadFileIntoPropertySources`, `resolvePath` and `getPropertyList` are the same code as
    those of `FileUtil`, and are the members of `ConfigFiles`; this module fixes the location
    and extension lists and adds the configurer. */
module AppConfig {
  import opened Common
  import opened ConfigFiles

  /** `CONFIG_LOCATIONS` */
  const CONFIG_LOCATIONS: seq<string> := ["/", "/config/", "/configuration/"]
  /** `CONFIG_EXTENSIONS` */
  const CONFIG_EXTENSIONS: seq<string> := ["properties", "yml", "yaml"]

  /** A main-file name is relative, so it is resolved below the location. */
  lemma MainFileIsRelative(location: string, ext: string)
    ensures ResolvePath(location, APPLICATION + ext) == TrimSlash(location) + "/" + (APPLICATION + ext)
  {
    var imp := APPLICATION + ext;
    assert imp[0] == 'a';
    assert !StartsWith(imp, "classpath:") by { assert "classpath:"[0] == 'c'; }
    assert !StartsWith(imp, "/") by { assert "/"[0] == '/'; }
    assert !StartsWith(imp, "../") by { assert "../"[0] == '.'; }
  }

  /** The main-file candidates at one location: `application.<ext>` for each extension in
      turn, directly below the location with its trailing slash removed. */
  lemma CandidatesAtLocation(location: string, extensions: seq<string>)
    ensures |CandidatesAt(location, extensions)| == |extensions|
    ensures forall i :: 0 <= i < |extensions| ==>
              CandidatesAt(location, extensions)[i] ==
              (location, TrimSlash(location) + "/" + (APPLICATION + extensions[i]))
  {
    forall i | 0 <= i < |extensions|
      ensures CandidatesAt(location, extensions)[i] ==
              (location, TrimSlash(location) + "/" + (APPLICATION + extensions[i]))
    {
      MainFileIsRelative(location, extensions[i]);
    }
  }

  /** The locations with their trailing slash removed, the folders main files are looked up in. */
  lemma LocationFolders()
    ensures TrimSlash(CONFIG_LOCATIONS[0]) == ""
    ensures TrimSlash(CONFIG_LOCATIONS[1]) == "/config"
    ensures TrimSlash(CONFIG_LOCATIONS[2]) == "/configuration"
  {
    assert CONFIG_LOCATIONS[1][..|CONFIG_LOCATIONS[1]| - 1] == "/config";
    assert CONFIG_LOCATIONS[2][..|CONFIG_LOCATIONS[2]| - 1] == "/configuration";
  }

  /** The main-file candidates, in the order tried: the three extensions at `/`, then at
      `/config/`, then at `/configuration/`. */
  lemma NineCandidates()
    ensures Candidates(CONFIG_LOCATIONS, CONFIG_EXTENSIONS) ==
            CandidatesAt("/", CONFIG_EXTENSIONS) + CandidatesAt("/config/", CONFIG_EXTENSIONS) +
            CandidatesAt("/configuration/", CONFIG_EXTENSIONS)
  {
    var e := CONFIG_EXTENSIONS;
    assert CONFIG_LOCATIONS[1..] == ["/config/", "/configuration/"];
    assert CONFIG_LOCATIONS[1..][1..] == ["/configuration/"];
    assert CONFIG_LOCATIONS[1..][1..][1..] == [];
  }

  /** The two cases of `resolvePath` its contract singles out: a `../` import is glued to the
      base without a separator, and a `classpath:` import is kept whatever the base. */
  lemma ResolvePathExamples(base: string)
    ensures ResolvePath("/config/", "../x.yml") == "/config../x.yml"
    ensures ResolvePath(base, "classpath:a") == "classpath:a"
  {
    assert "../x.yml"[..3] == "../";
    assert "../x.yml"[0] == '.';
    assert TrimSlash("/config/") == "/config";
    assert StartsWith("classpath:a", "classpath:");
  }

  /** `loadConfigFiles(propertySources)` */
  method LoadConfigFiles(ps: PropertySources, cp: Classpath) returns (found: bool)
    modifies ps
    ensures Loaded(found, ps.sources) == Search(old(ps.sources), cp, CONFIG_LOCATIONS, CONFIG_EXTENSIONS)
  {
    found := ConfigFiles.LoadConfigFiles(ps, cp, CONFIG_LOCATIONS, CONFIG_EXTENSIONS);
  }

  /** The main configuration file that is loaded, if any: the first of the nine candidates that
      loads. Only that one `application.*` file is read as a main file; the search then stops. */
  lemma OneMainFile(cp: Classpath)
    ensures Search([], cp, CONFIG_LOCATIONS, CONFIG_EXTENSIONS)
            == SearchOutcome([], cp, FirstHit(cp, Candidates(CONFIG_LOCATIONS, CONFIG_EXTENSIONS)))
    ensures Search([], cp, CONFIG_LOCATIONS, CONFIG_EXTENSIONS).ok <==>
            exists i :: 0 <= i < 9 && Loadable(cp, Candidates(CONFIG_LOCATIONS, CONFIG_EXTENSIONS)[i].1)
  {
    SearchFirstHit([], cp, CONFIG_LOCATIONS, CONFIG_EXTENSIONS);
  }

  /** The settings of `PropertySourcesPlaceholderConfigurer` this configuration touches. */
  class Configurer {
    var propertySources: Option<seq<PropertySource>>
    var ignoreUnresolvablePlaceholders: bool
    var ignoreResourceNotFound: bool

    constructor ()
      ensures propertySources == None && !ignoreUnresolvablePlaceholders && !ignoreResourceNotFound
    {
      propertySources := None;
      ignoreUnresolvablePlaceholders := false;
      ignoreResourceNotFound := false;
    }

    method SetPropertySources(sources: seq<PropertySource>)
      modifies this
      ensures propertySources == Some(sources)
      ensures ignoreUnresolvablePlaceholders == old(ignoreUnresolvablePlaceholders)
      ensures ignoreResourceNotFound == old(ignoreResourceNotFound)
    {
      propertySources := Some(sources);
    }

    method SetIgnoreUnresolvablePlaceholders(flag: bool)
      modifies this
      ensures ignoreUnresolvablePlaceholders == flag
      ensures propertySources == old(propertySources) && ignoreResourceNotFound == old(ignoreResourceNotFound)
    {
      ignoreUnresolvablePlaceholders := flag;
    }

    method SetIgnoreResourceNotFound(flag: bool)
      modifies this
      ensures ignoreResourceNotFound == flag
      ensures propertySources == old(propertySources)
      ensures ignoreUnresolvablePlaceholders == old(ignoreUnresolvablePlaceholders)
    {
      ignoreResourceNotFound := flag;
    }
  }

  /** `propertySourcesPlaceholderConfigurer()`: the configurer is handed the loaded sources only
      when a main file was found; both tolerance flags are set in every case. */
  method PropertySourcesPlaceholderConfigurer(cp: Classpath) returns (c: Configurer)
    ensures fresh(c)
    ensures c.ignoreUnresolvablePlaceholders && c.ignoreResourceNotFound
    ensures var r := Search([], cp, CONFIG_LOCATIONS, CONFIG_EXTENSIONS);
            c.propertySources == if r.ok then Some(r.sources) else None
  {
    c := new Configurer();
    var ps := new PropertySources();
    var found := LoadConfigFiles(ps, cp);
    if found {
      c.SetPropertySources(ps.sources);
    }
    c.SetIgnoreUnresolvablePlaceholders(true);
    c.SetIgnoreResourceNotFound(true);
  }
}
