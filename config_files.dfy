/** Config-file discovery of `FileUtil`: searching the classpath for the first `application.*`
    file, loading it into a list of property sources, then loading the files it imports.

    The classpath is an oracle: a map from a resource path to what reading it yields, once as a
    `.properties` file and once as a YAML file (None where that reader fails). A property value
    is either a string or some other object; only strings are collected as imports. */
module ConfigFiles {
  import opened Common

  /** The property whose values name the files a configuration file imports. */
  const IMPORT_KEY: string := "spring.config.import"
  /** The base name of the main configuration file. */
  const APPLICATION: string := "application."

  datatype PropValue = Text(s: string) | NonText

  /** The entries of a loaded file, in the order `getPropertyNames` lists them. The readers are
      taken to list each name once, as a `Properties` object (a hash table) does; nothing here
      requires it, and with a repeated name `EntryValues` would collect one value per entry
      where `getProperty` answers once per name. */
  type Properties = seq<(string, PropValue)>

  /** A property source: its name, its entries, and whether it is an `EnumerablePropertySource`. */
  datatype PropertySource = PropertySource(name: string, entries: Properties, enumerable: bool)

  /** A classpath resource, as the two readers see it. */
  datatype Resource = Resource(asProperties: Option<Properties>, asYaml: Option<Properties>)

  /** Every path `ClassPathResource.exists()` accepts, with its resource. */
  type Classpath = map<string, Resource>

  // ---------------------------------------------------------------------------------------
  // MutablePropertySources

  /** The sources not named `name`, in order. */
  function Without(ss: seq<PropertySource>, name: string): (r: seq<PropertySource>)
    ensures |r| <= |ss|
    ensures forall s :: s in r <==> s in ss && s.name != name
    ensures (forall s :: s in ss ==> s.name != name) ==> r == ss
  {
    if ss == [] then []
    else
      var r := Without(ss[..|ss| - 1], name) + (if ss[|ss| - 1].name != name then [ss[|ss| - 1]] else []);
      assert ss == ss[..|ss| - 1] + [ss[|ss| - 1]];
      r
  }

  /** Removing a name keeps the order of the sources that remain: it works piece by piece. */
  lemma {:induction false} WithoutAppend(a: seq<PropertySource>, b: seq<PropertySource>, name: string)
    ensures Without(a + b, name) == Without(a, name) + Without(b, name)
    decreases |b|
  {
    if b == [] {
      assert a + b == a;
    } else {
      var b', x := b[..|b| - 1], b[|b| - 1];
      assert (a + b)[..|a + b| - 1] == a + b';
      assert (a + b)[|a + b| - 1] == x;
      WithoutAppend(a, b', name);
    }
  }

  /** No two sources share a name. */
  ghost predicate DistinctNames(ss: seq<PropertySource>) {
    forall i, j :: 0 <= i < j < |ss| ==> ss[i].name != ss[j].name
  }

  /** Removing a name keeps the remaining names distinct. */
  lemma {:induction false} WithoutDistinct(ss: seq<PropertySource>, name: string)
    requires DistinctNames(ss)
    ensures DistinctNames(Without(ss, name))
    decreases |ss|
  {
    if ss != [] {
      var init, x := ss[..|ss| - 1], ss[|ss| - 1];
      assert DistinctNames(init);
      WithoutDistinct(init, name);
      var w := Without(init, name);
      forall s | s in w ensures s.name != x.name {
        var i :| 0 <= i < |init| && init[i] == s;
        assert ss[i] == s;
      }
      var r := w + (if x.name != name then [x] else []);
      assert Without(ss, name) == r;
      forall i, j | 0 <= i < j < |r| ensures r[i].name != r[j].name {
        if j == |w| {
          assert r[i] in w;
        }
      }
    }
  }

  /** `MutablePropertySources`: an ordered list of sources; `addLast` keeps their names
      distinct. */
  class PropertySources {
    var sources: seq<PropertySource>

    constructor ()
      ensures sources == []
    {
      sources := [];
    }

    /** `addLast(source)`: a source of the same name is removed first, then the new source
        goes at the end. */
    method AddLast(s: PropertySource)
      modifies this
      ensures sources == Without(old(sources), s.name) + [s]
      ensures old(DistinctNames(sources)) ==> DistinctNames(sources)
    {
      if DistinctNames(sources) {
        WithoutDistinct(sources, s.name);
      }
      sources := Without(sources, s.name) + [s];
    }
  }

  // ---------------------------------------------------------------------------------------
  // loadFileIntoPropertySources

  /** The outcome of a load: whether it succeeded, and the sources afterwards. */
  datatype Loaded = Loaded(ok: bool, sources: seq<PropertySource>)

  /** Whether `loadFileIntoPropertySources` succeeds on `path`: the resource exists, its suffix
      picks a reader (`.properties` first, then `.yaml` or `.yml`), and that reader succeeds. */
  predicate Loadable(cp: Classpath, path: string) {
    path in cp &&
    if EndsWith(path, ".properties") then cp[path].asProperties.Some?
    else (EndsWith(path, ".yaml") || EndsWith(path, ".yml")) && cp[path].asYaml.Some?
  }

  /** `loadPropertiesFile` and `loadYamlFile` after their reader ran: a source named by its path
      is added last, or nothing changes when the reader failed. */
  function AddSource(ss: seq<PropertySource>, path: string, read: Option<Properties>): (r: Loaded)
    ensures r.ok <==> read.Some?
    ensures !r.ok ==> r.sources == ss
    ensures r.ok ==> r.sources == Without(ss, path) + [PropertySource(path, read.value, true)]
  {
    match read
    case None => Loaded(false, ss)
    case Some(p) => Loaded(true, Without(ss, path) + [PropertySource(path, p, true)])
  }

  /** `loadFileIntoPropertySources(propertySources, filePath)` applied to the sources `ss`. */
  function LoadFile(ss: seq<PropertySource>, cp: Classpath, path: string): (r: Loaded)
    ensures r.ok <==> Loadable(cp, path)
    ensures !r.ok ==> r.sources == ss
    ensures r.ok ==> |r.sources| >= 1 && r.sources[..|r.sources| - 1] == Without(ss, path)
    ensures r.ok ==> var last := r.sources[|r.sources| - 1]; last.name == path && last.enumerable
    ensures r.ok ==>
              r.sources[|r.sources| - 1].entries ==
              (if EndsWith(path, ".properties") then cp[path].asProperties.value else cp[path].asYaml.value)
  {
    if path !in cp then Loaded(false, ss)
    else if EndsWith(path, ".properties") then AddSource(ss, path, cp[path].asProperties)
    else if EndsWith(path, ".yaml") || EndsWith(path, ".yml") then AddSource(ss, path, cp[path].asYaml)
    else Loaded(false, ss)
  }

  /** A load onto sources that do not yet name the path appends exactly one source. */
  lemma LoadFileAppends(ss: seq<PropertySource>, cp: Classpath, path: string)
    requires Loadable(cp, path)
    requires forall s :: s in ss ==> s.name != path
    ensures |LoadFile(ss, cp, path).sources| == |ss| + 1
    ensures LoadFile(ss, cp, path).sources[..|ss|] == ss
  {
  }

  /** `loadPropertiesFile(propertySources, resource, path)` */
  method LoadPropertiesFile(ps: PropertySources, resource: Resource, path: string) returns (loaded: bool)
    modifies ps
    ensures Loaded(loaded, ps.sources) == AddSource(old(ps.sources), path, resource.asProperties)
  {
    match resource.asProperties {
      case None =>
        loaded := false;
      case Some(p) =>
        ps.AddLast(PropertySource(path, p, true));
        loaded := true;
    }
  }

  /** `loadYamlFile(propertySources, resource, path)` */
  method LoadYamlFile(ps: PropertySources, resource: Resource, path: string) returns (loaded: bool)
    modifies ps
    ensures Loaded(loaded, ps.sources) == AddSource(old(ps.sources), path, resource.asYaml)
  {
    match resource.asYaml {
      case None =>
        loaded := false;
      case Some(p) =>
        ps.AddLast(PropertySource(path, p, true));
        loaded := true;
    }
  }

  /** `loadFileIntoPropertySources(propertySources, filePath)` */
  method LoadFileIntoPropertySources(ps: PropertySources, cp: Classpath, path: string) returns (loaded: bool)
    modifies ps
    ensures Loaded(loaded, ps.sources) == LoadFile(old(ps.sources), cp, path)
  {
    if path !in cp {
      return false;
    }
    if EndsWith(path, ".properties") {
      loaded := LoadPropertiesFile(ps, cp[path], path);
    } else if EndsWith(path, ".yaml") || EndsWith(path, ".yml") {
      loaded := LoadYamlFile(ps, cp[path], path);
    } else {
      loaded := false;
    }
  }

  // ---------------------------------------------------------------------------------------
  // resolvePath

  /** Whether `resolvePath` returns an import unchanged. */
  predicate IsAbsolute(imp: string) {
    StartsWith(imp, "classpath:") || StartsWith(imp, "/")
  }

  /** The base path with one trailing slash removed. */
  function TrimSlash(base: string): (b: string)
    ensures EndsWith(base, "/") ==> b + "/" == base
    ensures !EndsWith(base, "/") ==> b == base
  {
    if EndsWith(base, "/") then base[..|base| - 1] else base
  }

  /** `resolvePath(basePath, importFile)`, including the second `startsWith("/")` test. */
  function ResolvePath(base: string, imp: string): (r: string)
    ensures IsAbsolute(imp) ==> r == imp
    ensures !IsAbsolute(imp) && StartsWith(imp, "../") ==> r == TrimSlash(base) + imp
    ensures !IsAbsolute(imp) && !StartsWith(imp, "../") ==> r == TrimSlash(base) + "/" + imp
  {
    if StartsWith(imp, "classpath:") || StartsWith(imp, "/") then imp
    else
      var b := if EndsWith(base, "/") then base[..|base| - 1] else base;
      if StartsWith(imp, "/") || StartsWith(imp, "../") then b + imp else b + "/" + imp
  }

  /** The second `startsWith("/")` test never decides anything: dropping it changes no result. */
  lemma ResolvePathDeadTest(base: string, imp: string)
    ensures ResolvePath(base, imp) ==
      (if IsAbsolute(imp) then imp
       else if StartsWith(imp, "../") then TrimSlash(base) + imp
       else TrimSlash(base) + "/" + imp)
  {
  }

  /** One trailing slash on the base makes no difference. */
  lemma ResolvePathTrailingSlash(base: string, imp: string)
    requires !EndsWith(base, "/")
    ensures ResolvePath(base + "/", imp) == ResolvePath(base, imp)
  {
    assert EndsWith(base + "/", "/");
    assert (base + "/")[..|base + "/"| - 1] == base;
  }

  /** A relative import always ends the result, below the base. */
  lemma ResolvePathEndsWithImport(base: string, imp: string)
    ensures EndsWith(ResolvePath(base, imp), imp)
    ensures !IsAbsolute(imp) ==> StartsWith(ResolvePath(base, imp), TrimSlash(base))
  {
    var r := ResolvePath(base, imp);
    if !IsAbsolute(imp) {
      var b := TrimSlash(base);
      if StartsWith(imp, "../") {
        assert r == b + imp;
        assert r[|r| - |imp|..] == imp;
        assert r[..|b|] == b;
      } else {
        assert r == (b + "/") + imp;
        assert r[|r| - |imp|..] == imp;
        assert r[..|b|] == b;
      }
    }
  }

  // ---------------------------------------------------------------------------------------
  // getPropertyList

  /** The string values of one source's entries whose names start with the prefix, in order. */
  function EntryValues(entries: Properties, prefix: string): (r: seq<string>)
    ensures |r| <= |entries|
  {
    if entries == [] then []
    else
      var e := entries[|entries| - 1];
      EntryValues(entries[..|entries| - 1], prefix) + (if StartsWith(e.0, prefix) && e.1.Text? then [e.1.s] else [])
  }

  /** The values `getPropertyList(propertySources, prefix)` collects: source by source, only
      from enumerable sources. */
  function PropertyList(ss: seq<PropertySource>, prefix: string): seq<string> {
    if ss == [] then []
    else
      var s := ss[|ss| - 1];
      PropertyList(ss[..|ss| - 1], prefix) + (if s.enumerable then EntryValues(s.entries, prefix) else [])
  }

  /** Whether entry `j` of source `i` contributes `v`. */
  ghost predicate Contributes(ss: seq<PropertySource>, prefix: string, v: string, i: int, j: int) {
    0 <= i < |ss| && ss[i].enumerable && 0 <= j < |ss[i].entries| &&
    StartsWith(ss[i].entries[j].0, prefix) && ss[i].entries[j].1 == Text(v)
  }

  lemma {:induction false} EntryValuesMembership(entries: Properties, prefix: string, v: string)
    ensures v in EntryValues(entries, prefix) <==>
      exists j :: 0 <= j < |entries| && StartsWith(entries[j].0, prefix) && entries[j].1 == Text(v)
    decreases |entries|
  {
    if entries != [] {
      var init, last := entries[..|entries| - 1], entries[|entries| - 1];
      var tail := if StartsWith(last.0, prefix) && last.1.Text? then [last.1.s] else [];
      assert EntryValues(entries, prefix) == EntryValues(init, prefix) + tail;
      EntryValuesMembership(init, prefix, v);
      if v in EntryValues(entries, prefix) {
        if v in EntryValues(init, prefix) {
          var j :| 0 <= j < |init| && StartsWith(init[j].0, prefix) && init[j].1 == Text(v);
          assert entries[j] == init[j];
        } else {
          assert v in tail;
          assert StartsWith(entries[|entries| - 1].0, prefix) && entries[|entries| - 1].1 == Text(v);
        }
      }
      if exists j :: 0 <= j < |entries| && StartsWith(entries[j].0, prefix) && entries[j].1 == Text(v) {
        var j :| 0 <= j < |entries| && StartsWith(entries[j].0, prefix) && entries[j].1 == Text(v);
        if j < |init| {
          assert init[j] == entries[j];
        } else {
          assert v in tail;
        }
      }
    }
  }

  /** A value is collected exactly when some entry of an enumerable source has a name with the
      prefix and that string as its value. */
  lemma {:induction false} PropertyListMembership(ss: seq<PropertySource>, prefix: string, v: string)
    ensures v in PropertyList(ss, prefix) <==> exists i, j :: Contributes(ss, prefix, v, i, j)
    decreases |ss|
  {
    if ss != [] {
      var init := ss[..|ss| - 1];
      var s := ss[|ss| - 1];
      PropertyListMembership(init, prefix, v);
      EntryValuesMembership(s.entries, prefix, v);
      if exists i, j :: Contributes(ss, prefix, v, i, j) {
        var i, j :| Contributes(ss, prefix, v, i, j);
        if i < |init| {
          assert init[i] == ss[i];
          assert Contributes(init, prefix, v, i, j);
        }
      }
      if exists i, j :: Contributes(init, prefix, v, i, j) {
        var i, j :| Contributes(init, prefix, v, i, j);
        assert ss[i] == init[i];
        assert Contributes(ss, prefix, v, i, j);
      }
      if s.enumerable && v in EntryValues(s.entries, prefix) {
        var j :| 0 <= j < |s.entries| && StartsWith(s.entries[j].0, prefix) && s.entries[j].1 == Text(v);
        assert Contributes(ss, prefix, v, |ss| - 1, j);
      }
    }
  }

  /** Values come source by source: collecting over two lists of sources concatenates. */
  lemma {:induction false} PropertyListAppend(a: seq<PropertySource>, b: seq<PropertySource>, prefix: string)
    ensures PropertyList(a + b, prefix) == PropertyList(a, prefix) + PropertyList(b, prefix)
    decreases |b|
  {
    if b == [] {
      assert a + b == a;
    } else {
      assert (a + b)[..|a + b| - 1] == a + b[..|b| - 1];
      assert (a + b)[|a + b| - 1] == b[|b| - 1];
      PropertyListAppend(a, b[..|b| - 1], prefix);
    }
  }

  /** `getPropertyList(propertySources, keyPrefix)` */
  method GetPropertyList(ps: PropertySources, prefix: string) returns (values: seq<string>)
    ensures values == PropertyList(ps.sources, prefix)
  {
    var ss := ps.sources;
    values := [];
    for i := 0 to |ss|
      invariant values == PropertyList(ss[..i], prefix)
    {
      assert ss[..i + 1][..i] == ss[..i];
      var s := ss[i];
      if s.enumerable {
        var es := s.entries;
        var found: seq<string> := [];
        for j := 0 to |es|
          invariant found == EntryValues(es[..j], prefix)
        {
          assert es[..j + 1][..j] == es[..j];
          if StartsWith(es[j].0, prefix) && es[j].1.Text? {
            found := found + [es[j].1.s];
          }
        }
        assert es[..|es|] == es;
        values := values + found;
      }
    }
    assert ss[..|ss|] == ss;
  }

  // ---------------------------------------------------------------------------------------
  // loadConfigFiles

  /** The files a loaded main file imports, each loaded in turn; the import list is the one
      computed before any of them loads. */
  function LoadImports(ss: seq<PropertySource>, cp: Classpath, location: string, imports: seq<string>)
    : seq<PropertySource>
  {
    if imports == [] then ss
    else
      var before := LoadImports(ss, cp, location, imports[..|imports| - 1]);
      LoadFile(before, cp, ResolvePath(location, imports[|imports| - 1])).sources
  }

  /** The sources after the main file `main` of `location` loaded and its imports were followed. */
  function WithImports(main: seq<PropertySource>, cp: Classpath, location: string): seq<PropertySource> {
    LoadImports(main, cp, location, PropertyList(main, IMPORT_KEY))
  }

  /** The inner loop of `loadConfigFiles` over the extensions at one location. */
  function SearchAt(ss: seq<PropertySource>, cp: Classpath, location: string, extensions: seq<string>): (r: Loaded)
    ensures !r.ok ==> r.sources == ss
  {
    if extensions == [] then Loaded(false, ss)
    else
      var main := LoadFile(ss, cp, ResolvePath(location, APPLICATION + extensions[0]));
      if main.ok then Loaded(true, WithImports(main.sources, cp, location))
      else SearchAt(ss, cp, location, extensions[1..])
  }

  /** The outer loop of `loadConfigFiles` over the locations. */
  function Search(ss: seq<PropertySource>, cp: Classpath, locations: seq<string>, extensions: seq<string>): (r: Loaded)
    ensures !r.ok ==> r.sources == ss
  {
    if locations == [] then Loaded(false, ss)
    else
      var here := SearchAt(ss, cp, locations[0], extensions);
      if here.ok then here else Search(ss, cp, locations[1..], extensions)
  }

  /** The `configImports.forEach` pass: each import resolved against the location and loaded,
      whether or not it succeeds. */
  method FollowImports(ps: PropertySources, cp: Classpath, location: string, imports: seq<string>)
    modifies ps
    ensures ps.sources == LoadImports(old(ps.sources), cp, location, imports)
  {
    ghost var main := ps.sources;
    for k := 0 to |imports|
      invariant ps.sources == LoadImports(main, cp, location, imports[..k])
    {
      assert imports[..k + 1][..k] == imports[..k];
      var _ := LoadFileIntoPropertySources(ps, cp, ResolvePath(location, imports[k]));
    }
    assert imports[..|imports|] == imports;
  }

  /** The inner loop of `loadConfigFiles` at one location, returning at the first success. */
  method SearchLocation(ps: PropertySources, cp: Classpath, location: string, extensions: seq<string>)
    returns (found: bool)
    modifies ps
    ensures Loaded(found, ps.sources) == SearchAt(old(ps.sources), cp, location, extensions)
  {
    ghost var start := ps.sources;
    for j := 0 to |extensions|
      invariant ps.sources == start
      invariant SearchAt(start, cp, location, extensions) == SearchAt(start, cp, location, extensions[j..])
    {
      assert extensions[j..][0] == extensions[j] && extensions[j..][1..] == extensions[j + 1..];
      var loaded := LoadFileIntoPropertySources(ps, cp, ResolvePath(location, APPLICATION + extensions[j]));
      if loaded {
        var imports := GetPropertyList(ps, IMPORT_KEY);
        FollowImports(ps, cp, location, imports);
        return true;
      }
    }
    return false;
  }

  /** One step of the outer loop. */
  lemma SearchStep(ss: seq<PropertySource>, cp: Classpath, locations: seq<string>, extensions: seq<string>)
    requires locations != []
    ensures SearchAt(ss, cp, locations[0], extensions).ok ==>
              Search(ss, cp, locations, extensions) == SearchAt(ss, cp, locations[0], extensions)
    ensures !SearchAt(ss, cp, locations[0], extensions).ok ==>
              Search(ss, cp, locations, extensions) == Search(ss, cp, locations[1..], extensions)
  {
  }

  /** `loadConfigFiles(propertySources)` with its location and extension lists. */
  method LoadConfigFiles(ps: PropertySources, cp: Classpath, locations: seq<string>, extensions: seq<string>)
    returns (found: bool)
    modifies ps
    ensures Loaded(found, ps.sources) == Search(old(ps.sources), cp, locations, extensions)
  {
    ghost var start := ps.sources;
    for i := 0 to |locations|
      invariant ps.sources == start
      invariant Search(start, cp, locations, extensions) == Search(start, cp, locations[i..], extensions)
    {
      SearchStep(start, cp, locations[i..], extensions);
      assert locations[i..][0] == locations[i] && locations[i..][1..] == locations[i + 1..];
      found := SearchLocation(ps, cp, locations[i], extensions);
      if found {
        return;
      }
    }
    assert locations[|locations|..] == [];
    found := false;
  }

  // ---------------------------------------------------------------------------------------
  // The search as a list of candidates

  /** The main-file candidates at one location, each with its location, in extension order. */
  function CandidatesAt(location: string, extensions: seq<string>): (r: seq<(string, string)>)
    ensures |r| == |extensions|
    ensures forall i :: 0 <= i < |r| ==> r[i] == (location, ResolvePath(location, APPLICATION + extensions[i]))
  {
    if extensions == [] then []
    else [(location, ResolvePath(location, APPLICATION + extensions[0]))] + CandidatesAt(location, extensions[1..])
  }

  /** Every main-file candidate, locations in the outer loop and extensions in the inner one. */
  function Candidates(locations: seq<string>, extensions: seq<string>): (r: seq<(string, string)>)
    ensures |r| == |locations| * |extensions|
  {
    if locations == [] then [] else CandidatesAt(locations[0], extensions) + Candidates(locations[1..], extensions)
  }

  /** The first candidate whose file loads. */
  function FirstHit(cp: Classpath, candidates: seq<(string, string)>): (r: Option<(string, string)>)
    ensures r.None? <==> forall i :: 0 <= i < |candidates| ==> !Loadable(cp, candidates[i].1)
    ensures r.Some? ==> exists i :: 0 <= i < |candidates| && candidates[i] == r.value && Loadable(cp, r.value.1) &&
                          forall k :: 0 <= k < i ==> !Loadable(cp, candidates[k].1)
  {
    if candidates == [] then None
    else if Loadable(cp, candidates[0].1) then Some(candidates[0])
    else
      var rest := candidates[1..];
      var r := FirstHit(cp, rest);
      assert forall i :: 0 < i < |candidates| ==> candidates[i] == rest[i - 1];
      assert r.Some? ==> exists i :: 0 <= i < |candidates| && candidates[i] == r.value && Loadable(cp, r.value.1) &&
                           forall k :: 0 <= k < i ==> !Loadable(cp, candidates[k].1) by {
        if r.Some? {
          var i :| 0 <= i < |rest| && rest[i] == r.value && Loadable(cp, r.value.1) &&
                   forall k :: 0 <= k < i ==> !Loadable(cp, rest[k].1);
          assert candidates[i + 1] == r.value;
          assert forall k :: 0 <= k < i + 1 ==> !Loadable(cp, candidates[k].1);
        }
      }
      r
  }

  lemma FirstHitAppend(cp: Classpath, a: seq<(string, string)>, b: seq<(string, string)>)
    ensures FirstHit(cp, a + b) == if FirstHit(cp, a).Some? then FirstHit(cp, a) else FirstHit(cp, b)
    decreases |a|
  {
    if a != [] {
      assert (a + b)[0] == a[0];
      assert (a + b)[1..] == a[1..] + b;
      FirstHitAppend(cp, a[1..], b);
    } else {
      assert a + b == b;
    }
  }

  /** What the search loads, stated through the first loadable candidate. */
  function SearchOutcome(ss: seq<PropertySource>, cp: Classpath, hit: Option<(string, string)>): Loaded {
    match hit
    case None => Loaded(false, ss)
    case Some(c) => Loaded(true, WithImports(LoadFile(ss, cp, c.1).sources, cp, c.0))
  }

  lemma {:induction false} SearchAtFirstHit(ss: seq<PropertySource>, cp: Classpath, location: string, extensions: seq<string>)
    ensures SearchAt(ss, cp, location, extensions) == SearchOutcome(ss, cp, FirstHit(cp, CandidatesAt(location, extensions)))
    decreases |extensions|
  {
    if extensions != [] {
      var c := CandidatesAt(location, extensions);
      assert c[1..] == CandidatesAt(location, extensions[1..]);
      SearchAtFirstHit(ss, cp, location, extensions[1..]);
    }
  }

  /** `loadConfigFiles` succeeds exactly when some candidate loads; it then loads the FIRST such
      candidate and the imports of that file, resolved against that candidate's location, and
      nothing else: no later candidate is tried. */
  lemma {:induction false} SearchFirstHit(ss: seq<PropertySource>, cp: Classpath, locations: seq<string>, extensions: seq<string>)
    ensures Search(ss, cp, locations, extensions) == SearchOutcome(ss, cp, FirstHit(cp, Candidates(locations, extensions)))
    decreases |locations|
  {
    if locations != [] {
      SearchAtFirstHit(ss, cp, locations[0], extensions);
      SearchFirstHit(ss, cp, locations[1..], extensions);
      FirstHitAppend(cp, CandidatesAt(locations[0], extensions), Candidates(locations[1..], extensions));
    }
  }

  /** Imports are not followed transitively: every source the import pass adds is named by one
      of the imports listed before the pass began, resolved against the main file's location. */
  lemma {:induction false} ImportsNotFollowed(ss: seq<PropertySource>, cp: Classpath, location: string, imports: seq<string>)
    ensures forall s :: s in LoadImports(ss, cp, location, imports) ==>
              s in ss || exists k :: 0 <= k < |imports| && s.name == ResolvePath(location, imports[k])
    decreases |imports|
  {
    if imports != [] {
      var init := imports[..|imports| - 1];
      ImportsNotFollowed(ss, cp, location, init);
      var before := LoadImports(ss, cp, location, init);
      var path := ResolvePath(location, imports[|imports| - 1]);
      var after := LoadFile(before, cp, path).sources;
      forall s | s in after
        ensures s in ss || exists k :: 0 <= k < |imports| && s.name == ResolvePath(location, imports[k])
      {
        if s in before {
          if !(s in ss) {
            var k :| 0 <= k < |init| && s.name == ResolvePath(location, init[k]);
            assert imports[k] == init[k];
          }
        } else {
          assert LoadFile(before, cp, path).ok;
          assert after == after[..|after| - 1] + [after[|after| - 1]];
          assert s == after[|after| - 1];
          assert s.name == ResolvePath(location, imports[|imports| - 1]);
        }
      }
    }
  }
}
