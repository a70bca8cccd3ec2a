/** How a manifest page's render context is assembled: the page spec, the
    "specified" context (page YAML, chain-data sections, data sections), the
    page-specific `.md`/`.yaml` files, and the layering of all of them. */
module PageContext {

  import opened Wrappers
  import opened Values
  import opened Paths
  import opened Files
  import opened BuildErrors

  /** One entry of `src/data/pages.yaml`. */
  datatype PageSpec = PageSpec(
    template: string,                         // "template"
    baseTemplate: Option<string>,             // "base_template"
    context: Value,                           // "context" (Undefined when absent)
    contextFromYaml: Value,                   // "context_from_yaml"
    chainDataSections: Option<seq<string>>,   // "include_chaindata_as_context"
    dataSections: Option<seq<string>>)        // "include_data_in_context"

  /** The collaborators that turn file text into values. */
  datatype Parsers = Parsers(
    markdown: string -> string,       // marked
    parseYaml: string -> Value,       // yaml.load
    readdir: string -> seq<string>)   // fs.readdirSync, in the order it lists entries

  /** `dataAvailableAsContext`. */
  function DataAvailableAsContext(songs: Value, shows: Value, songsByProvenance: Value): map<string, Value> {
    map["songs" := songs, "shows" := shows, "songsByProvenance" := songsByProvenance]
  }

  /** A requested data section is found when `dataAvailableAsContext[name]` is
      not `undefined`. The registry is the table of properties readable on
      `dataAvailableAsContext` (`Readable`): its own ones holding a value, and
      the ones it inherits. */
  predicate Resolves(registry: map<string, Value>, name: string) {
    name in registry && registry[name] != Undefined
  }

  /** The sections a page can request: `songs`, `shows` and `songsByProvenance`,
      and, since the registry is a plain object, the names it inherits from
      `Object.prototype` (such as `constructor`), which bind a built-in. */
  lemma OnlyThreeSections(songs: Value, shows: Value, songsByProvenance: Value, name: string)
    requires songs != Undefined && shows != Undefined && songsByProvenance != Undefined
    ensures Resolves(Readable(DataAvailableAsContext(songs, shows, songsByProvenance)), name)
            <==> name == "songs" || name == "shows" || name == "songsByProvenance" || name in ObjectPrototypeNames
    ensures name !in {"songs", "shows", "songsByProvenance"} && name in ObjectPrototypeNames ==>
              RegistryLookup(Readable(DataAvailableAsContext(songs, shows, songsByProvenance)))(name) == Inherited(name)
  {
  }

  function PageYamlPath(page: string): string {
    "src/data/" + page + ".yaml"
  }

  function PageSpecificDir(page: string): string {
    "src/data/page_specific/" + page
  }

  /** The start of the specified context: with `context_from_yaml === true` the
      page's YAML file, nested under the page's own name; otherwise empty. */
  function YamlLayer(t: Tree, page: string, spec: PageSpec, parsers: Parsers): (r: Result<Context, BuildError>)
    ensures spec.contextFromYaml != Bool(true) ==> r == Ok(map[])
    ensures spec.contextFromYaml == Bool(true) && PageYamlPath(page) in t.files
            ==> r == Ok(map[page := parsers.parseYaml(t.files[PageYamlPath(page)])])
    ensures spec.contextFromYaml == Bool(true) && PageYamlPath(page) !in t.files
            ==> r.Err? && r.error == ReadFailed(Read(t, PageYamlPath(page)).error)
  {
    if spec.contextFromYaml == Bool(true) then
      match Read(t, PageYamlPath(page))
      case Err(e) => Err(ReadFailed(e))
      case Ok(text) => Ok(map[page := parsers.parseYaml(text)])
    else
      Ok(map[])
  }

  /** Assigns every name of `names`, in order, to `lookup(name)`; a later
      assignment of the same name replaces an earlier one (here they agree anyway). */
  function BindEach(ctx: Context, names: seq<string>, lookup: string -> Value): Context
    decreases |names|
  {
    if |names| == 0 then ctx
    else
      var last := names[|names| - 1];
      SetProperty(BindEach(ctx, names[..|names| - 1], lookup), last, lookup(last))
  }

  /** After the assignments, the keys are the old ones plus the names other than
      `__proto__`, and each name that is a key holds its looked-up value. */
  lemma {:induction false} BindEachBindings(ctx: Context, names: seq<string>, lookup: string -> Value)
    ensures BindEach(ctx, names, lookup).Keys == ctx.Keys + (set s | s in names && s != ProtoKey)
    ensures forall k :: k in BindEach(ctx, names, lookup) ==>
              BindEach(ctx, names, lookup)[k] == if k in names then lookup(k) else ctx[k]
    decreases |names|
  {
    if |names| > 0 {
      var prefix := names[..|names| - 1];
      BindEachBindings(ctx, prefix, lookup);
      assert forall s :: s in names <==> s in prefix || s == names[|names| - 1];
    }
  }

  /** The `include_chaindata_as_context` loop: each section is bound under its own
      name to `chainData[section]`, with no existence check. */
  function ChainSectionLookup(chainData: Value): string -> Value {
    s => Member(chainData, s)
  }

  /** `dataAvailableAsContext[dataSection]`. */
  function RegistryLookup(registry: map<string, Value>): string -> Value {
    s => if s in registry then registry[s] else Undefined
  }

  /** The position of the first requested data section the registry lacks. */
  function FirstUnresolved(registry: map<string, Value>, sections: seq<string>): (r: Option<nat>)
    ensures r.None? <==> forall i :: 0 <= i < |sections| ==> Resolves(registry, sections[i])
    ensures r.Some? ==> r.value < |sections| && !Resolves(registry, sections[r.value])
                        && forall j :: 0 <= j < r.value ==> Resolves(registry, sections[j])
  {
    if |sections| == 0 then None
    else if !Resolves(registry, sections[0]) then Some(0)
    else
      match FirstUnresolved(registry, sections[1..])
      case None => None
      case Some(i) => Some(i + 1)
  }

  /** The first unresolved section is the one before which all resolve. */
  lemma FirstUnresolvedAt(registry: map<string, Value>, sections: seq<string>, i: nat)
    requires i < |sections| && !Resolves(registry, sections[i])
    requires forall j :: 0 <= j < i ==> Resolves(registry, sections[j])
    ensures FirstUnresolved(registry, sections) == Some(i)
  {
  }

  /** The `include_data_in_context` loop: each section is bound under its own name,
      and the first one the registry lacks aborts with MissingDataSection. */
  function BindDataSections(ctx: Context, sections: seq<string>, registry: map<string, Value>, page: string)
    : Result<Context, BuildError>
  {
    match FirstUnresolved(registry, sections)
    case Some(i) => Err(MissingDataSection(sections[i], page))
    case None => Ok(BindEach(ctx, sections, RegistryLookup(registry)))
  }

  /** `specified_context`: the YAML layer, then the chain-data sections, then the
      data sections, each later binding replacing an earlier one of the same name. */
  function SpecifiedContextSpec(t: Tree, page: string, spec: PageSpec, chainData: Value,
                                registry: map<string, Value>, parsers: Parsers)
    : (r: Result<Context, BuildError>)
    // which bindings exist
    ensures r.Ok? ==>
      forall k :: k in r.value <==>
        || (spec.dataSections.Some? && k in spec.dataSections.value && k != ProtoKey)
        || (spec.chainDataSections.Some? && k in spec.chainDataSections.value && k != ProtoKey)
        || (spec.contextFromYaml == Bool(true) && k == page)
    ensures r.Ok? && spec.contextFromYaml == Bool(true) ==> PageYamlPath(page) in t.files
    // a data section beats a chain-data section, which beats the page YAML
    ensures r.Ok? ==>
      forall k :: k in r.value ==>
        r.value[k] == if spec.dataSections.Some? && k in spec.dataSections.value then RegistryLookup(registry)(k)
                      else if spec.chainDataSections.Some? && k in spec.chainDataSections.value then Member(chainData, k)
                      else parsers.parseYaml(t.files[PageYamlPath(page)])
    // the page YAML must be readable when requested
    ensures spec.contextFromYaml == Bool(true) && PageYamlPath(page) !in t.files
            ==> r == Err(ReadFailed(Read(t, PageYamlPath(page)).error))
    // otherwise the only failure is the first unknown data section, naming it and the page
    ensures spec.contextFromYaml != Bool(true) || PageYamlPath(page) in t.files ==>
      (r.Err? <==> spec.dataSections.Some? && FirstUnresolved(registry, spec.dataSections.value).Some?)
    ensures r.Err? ==> r.error.ReadFailed? || r.error.MissingDataSection?
    ensures r.Err? && r.error.MissingDataSection? ==>
      spec.dataSections.Some? &&
      exists i :: 0 <= i < |spec.dataSections.value| && r.error == MissingDataSection(spec.dataSections.value[i], page)
                  && !Resolves(registry, spec.dataSections.value[i])
                  && forall j :: 0 <= j < i ==> Resolves(registry, spec.dataSections.value[j])
  {
    var yaml :- YamlLayer(t, page, spec, parsers);
    var withChain := if spec.chainDataSections.Some?
                     then BindEach(yaml, spec.chainDataSections.value, ChainSectionLookup(chainData))
                     else yaml;
    BindEachBindings(yaml, if spec.chainDataSections.Some? then spec.chainDataSections.value else [],
                     ChainSectionLookup(chainData));
    BindEachBindings(withChain, if spec.dataSections.Some? then spec.dataSections.value else [],
                     RegistryLookup(registry));
    if spec.dataSections.Some?
    then BindDataSections(withChain, spec.dataSections.value, registry, page)
    else Ok(withChain)
  }

  /** Requesting the data section `__proto__` alone passes the existence check,
      since the accessor is inherited, but the assignment leaves
      `specified_context` without an own key. */
  lemma ProtoSectionAddsNoKey(t: Tree, page: string, spec: PageSpec, chainData: Value,
                              songs: Value, shows: Value, songsByProvenance: Value, parsers: Parsers)
    requires spec.contextFromYaml != Bool(true) && spec.chainDataSections.None?
    requires spec.dataSections == Some([ProtoKey])
    ensures SpecifiedContextSpec(t, page, spec, chainData,
                                 Readable(DataAvailableAsContext(songs, shows, songsByProvenance)), parsers)
            == Ok(map[])
  {
    var registry := Readable(DataAvailableAsContext(songs, shows, songsByProvenance));
    assert Member(Obj(DataAvailableAsContext(songs, shows, songsByProvenance)), ProtoKey) == Inherited(ProtoKey);
    assert FirstUnresolved(registry, [ProtoKey]).None?;
  }

  /** The `include_chaindata_as_context` loop of the page loop. */
  method BindChainDataSections(specified: Context, sections: seq<string>, chainData: Value)
    returns (r: Context)
    ensures r == BindEach(specified, sections, ChainSectionLookup(chainData))
  {
    r := specified;
    for i := 0 to |sections|
      invariant r == BindEach(specified, sections[..i], ChainSectionLookup(chainData))
    {
      assert sections[..i + 1][..i] == sections[..i];
      r := SetProperty(r, sections[i], Member(chainData, sections[i]));
    }
    assert sections[..|sections|] == sections;
  }

  /** Binding one more name of a list extends the bindings of its prefix. */
  lemma BindOneMore(ctx: Context, names: seq<string>, i: nat, lookup: string -> Value)
    requires i < |names|
    ensures BindEach(ctx, names[..i + 1], lookup) == SetProperty(BindEach(ctx, names[..i], lookup), names[i], lookup(names[i]))
  {
    assert names[..i + 1][..i] == names[..i];
  }

  /** Binding a section that resolves extends the bindings of its prefix by its value. */
  lemma BindResolvedOneMore(ctx: Context, sections: seq<string>, registry: map<string, Value>, i: nat)
    requires i < |sections| && RegistryLookup(registry)(sections[i]) != Undefined
    ensures Resolves(registry, sections[i])
    ensures BindEach(ctx, sections[..i + 1], RegistryLookup(registry))
            == SetProperty(BindEach(ctx, sections[..i], RegistryLookup(registry)), sections[i], RegistryLookup(registry)(sections[i]))
  {
    BindOneMore(ctx, sections, i, RegistryLookup(registry));
  }

  lemma BindDataSectionsFails(ctx: Context, sections: seq<string>, registry: map<string, Value>, page: string, i: nat)
    requires i < |sections| && !Resolves(registry, sections[i])
    requires forall j :: 0 <= j < i ==> Resolves(registry, sections[j])
    ensures BindDataSections(ctx, sections, registry, page) == Err(MissingDataSection(sections[i], page))
  {
    FirstUnresolvedAt(registry, sections, i);
  }

  lemma BindDataSectionsSucceeds(ctx: Context, sections: seq<string>, registry: map<string, Value>, page: string)
    requires forall j :: 0 <= j < |sections| ==> Resolves(registry, sections[j])
    ensures BindDataSections(ctx, sections, registry, page)
            == Ok(BindEach(ctx, sections[..|sections|], RegistryLookup(registry)))
  {
    assert sections[..|sections|] == sections;
  }

  /** The `include_data_in_context` loop of the page loop, which throws at the
      first section `dataAvailableAsContext` lacks. */
  method BindRequestedDataSections(specified: Context, sections: seq<string>,
                                   registry: map<string, Value>, page: string)
    returns (r: Result<Context, BuildError>)
    ensures r == BindDataSections(specified, sections, registry, page)
  {
    var bound := specified;
    for i := 0 to |sections|
      invariant forall j :: 0 <= j < i ==> Resolves(registry, sections[j])
      invariant bound == BindEach(specified, sections[..i], RegistryLookup(registry))
    {
      var dataSectionToInclude := RegistryLookup(registry)(sections[i]);
      if dataSectionToInclude == Undefined {
        BindDataSectionsFails(specified, sections, registry, page, i);
        return Err(MissingDataSection(sections[i], page));
      }
      BindResolvedOneMore(specified, sections, registry, i);
      bound := SetProperty(bound, sections[i], dataSectionToInclude);
    }
    BindDataSectionsSucceeds(specified, sections, registry, page);
    return Ok(bound);
  }

  /** Lines 152-176 of the page loop, building `specified_context`. */
  method SpecifiedContext(fs: FileStore, page: string, spec: PageSpec, chainData: Value,
                          registry: map<string, Value>, parsers: Parsers)
    returns (r: Result<Context, BuildError>)
    ensures r == SpecifiedContextSpec(fs.State(), page, spec, chainData, registry, parsers)
  {
    var specified: Context;
    if spec.contextFromYaml == Bool(true) {
      var text := fs.ReadFile(PageYamlPath(page));
      if text.Err? {
        return Err(ReadFailed(text.error));
      }
      specified := map[page := parsers.parseYaml(text.value)];
    } else {
      specified := map[];
    }
    if spec.chainDataSections.Some? {
      specified := BindChainDataSections(specified, spec.chainDataSections.value, chainData);
    }
    if spec.dataSections.Some? {
      r := BindRequestedDataSections(specified, spec.dataSections.value, registry, page);
    } else {
      r := Ok(specified);
    }
  }

  /** The context key a page-specific file contributes: its name without a final
      `.md` or `.yaml`; files with any other extension contribute nothing. */
  function PageFileKey(name: string): (k: Option<string>)
    ensures EndsWith(name, ".md") ==> k == Some(StripSuffix(name, ".md"))
    ensures EndsWith(name, ".yaml") ==> k == Some(StripSuffix(name, ".yaml"))
    ensures k.Some? <==> EndsWith(name, ".md") || EndsWith(name, ".yaml")
  {
    if EndsWith(name, ".md") then
      assert name[|name| - 1] == 'd';
      Some(StripSuffix(name, ".md"))
    else if EndsWith(name, ".yaml") then
      assert name[|name| - 1] == 'l';
      Some(StripSuffix(name, ".yaml"))
    else None
  }

  /** The value bound for a page-specific file: the HTML `marked` renders from a
      `.md` file, the value `yaml.load` parses from a `.yaml` file. */
  function PageFileValue(name: string, contents: string, parsers: Parsers): Value {
    if EndsWith(name, ".md") then Str(parsers.markdown(contents)) else parsers.parseYaml(contents)
  }

  /** True when entry `i` has a key and no later entry has the same one. */
  predicate LastWithKey(names: seq<string>, i: int) {
    0 <= i < |names| && PageFileKey(names[i]).Some?
    && forall j :: i < j < |names| ==> PageFileKey(names[j]) != PageFileKey(names[i])
  }

  /** The per-file loop over a page-specific directory listed as `names`: every
      entry is read (an unreadable one aborts), then bound by its extension. */
  function PageFilesSpec(t: Tree, dir: string, names: seq<string>, parsers: Parsers)
    : (r: Result<Context, BuildError>)
    decreases |names|
    ensures r.Ok? <==> forall i :: 0 <= i < |names| ==> Join(dir, names[i]) in t.files
    ensures r.Err? ==> r.error.ReadFailed?
  {
    if |names| == 0 then Ok(map[])
    else
      var prefix := names[..|names| - 1];
      var last := names[|names| - 1];
      match PageFilesSpec(t, dir, prefix, parsers)
      case Err(e) => Err(e)
      case Ok(ctx) =>
        match Read(t, Join(dir, last))
        case Err(e) => Err(ReadFailed(e))
        case Ok(text) =>
          assert forall i :: 0 <= i < |prefix| ==> prefix[i] == names[i];
          match PageFileKey(last)
          case None => Ok(ctx)
          case Some(k) => Ok(SetProperty(ctx, k, PageFileValue(last, text, parsers)))
  }

  /** The first unreadable entry decides the error: reading stops there. */
  lemma {:induction false} PageFilesStops(t: Tree, dir: string, names: seq<string>, parsers: Parsers, k: nat)
    requires k < |names| && PageFilesSpec(t, dir, names[..k], parsers).Ok?
    requires Join(dir, names[k]) !in t.files
    ensures PageFilesSpec(t, dir, names, parsers) == Err(ReadFailed(Read(t, Join(dir, names[k])).error))
    decreases |names|
  {
    var prefix := names[..|names| - 1];
    if k < |names| - 1 {
      assert prefix[..k] == names[..k];
      PageFilesStops(t, dir, prefix, parsers, k);
    } else {
      assert prefix == names[..k];
    }
  }

  /** The page-specific object starts empty and is only assigned to, so it never
      holds an own `__proto__`. */
  lemma {:induction false} PageFilesNoProto(t: Tree, dir: string, names: seq<string>, parsers: Parsers)
    requires PageFilesSpec(t, dir, names, parsers).Ok?
    ensures ProtoKey !in PageFilesSpec(t, dir, names, parsers).value
    decreases |names|
  {
    if |names| > 0 {
      PageFilesNoProto(t, dir, names[..|names| - 1], parsers);
    }
  }

  /** One more listed entry: the context grows by that entry's binding, if any;
      an entry named `__proto__.md` or `__proto__.yaml` adds none. */
  lemma PageFilesSnoc(t: Tree, dir: string, names: seq<string>, parsers: Parsers)
    requires |names| > 0 && PageFilesSpec(t, dir, names, parsers).Ok?
    ensures PageFilesSpec(t, dir, names[..|names| - 1], parsers).Ok?
    ensures Join(dir, names[|names| - 1]) in t.files
    ensures var last := names[|names| - 1];
            var before := PageFilesSpec(t, dir, names[..|names| - 1], parsers).value;
            PageFilesSpec(t, dir, names, parsers).value
            == if PageFileKey(last).None? || PageFileKey(last).value == ProtoKey then before
               else before[PageFileKey(last).value := PageFileValue(last, t.files[Join(dir, last)], parsers)]
  {
    PageFilesNoProto(t, dir, names[..|names| - 1], parsers);
  }

  /** A page-specific context has one key per `.md` or `.yaml` entry, other than
      `__proto__`, and no other. */
  lemma {:induction false} PageFilesKeys(t: Tree, dir: string, names: seq<string>, parsers: Parsers)
    requires PageFilesSpec(t, dir, names, parsers).Ok?
    ensures forall k :: k in PageFilesSpec(t, dir, names, parsers).value
                        <==> k != ProtoKey && exists i :: 0 <= i < |names| && PageFileKey(names[i]) == Some(k)
    decreases |names|
  {
    if |names| > 0 {
      var prefix := names[..|names| - 1];
      assert forall i :: 0 <= i < |prefix| ==> prefix[i] == names[i];
      PageFilesSnoc(t, dir, names, parsers);
      PageFilesKeys(t, dir, prefix, parsers);
    }
  }

  /** When two entries share a key, the context keeps the one listed later; the
      key `__proto__` holds neither. */
  lemma {:induction false} PageFilesLastWins(t: Tree, dir: string, names: seq<string>, parsers: Parsers, i: nat)
    requires PageFilesSpec(t, dir, names, parsers).Ok?
    requires LastWithKey(names, i)
    ensures Join(dir, names[i]) in t.files
    ensures PageFileKey(names[i]).value == ProtoKey ==>
              ProtoKey !in PageFilesSpec(t, dir, names, parsers).value
    ensures PageFileKey(names[i]).value != ProtoKey ==>
              && PageFileKey(names[i]).value in PageFilesSpec(t, dir, names, parsers).value
              && PageFilesSpec(t, dir, names, parsers).value[PageFileKey(names[i]).value]
                 == PageFileValue(names[i], t.files[Join(dir, names[i])], parsers)
    decreases |names|
  {
    PageFilesNoProto(t, dir, names, parsers);
    var prefix := names[..|names| - 1];
    PageFilesSnoc(t, dir, names, parsers);
    if i < |prefix| {
      assert forall j :: 0 <= j < |prefix| ==> prefix[j] == names[j];
      assert LastWithKey(prefix, i);
      PageFilesLastWins(t, dir, prefix, parsers, i);
    }
  }

  /** True when `names` is a listing of directory `dir` of `t`: each entry of the
      directory once, and nothing else. */
  ghost predicate ListsDirectory(t: Tree, dir: string, names: seq<string>) {
    && (forall i, j :: 0 <= i < j < |names| ==> names[i] != names[j])
    && (forall i :: 0 <= i < |names| ==> '/' !in names[i] && Exists(t, Join(dir, names[i])))
    && (forall n :: '/' !in n && Exists(t, Join(dir, n)) ==> n in names)
  }

  /** Given a true listing, the page-specific files load exactly when the
      directory holds no sub-directory, and then bind one key per `.md` or
      `.yaml` file in it, other than `__proto__`. */
  lemma PageFilesOfDirectory(t: Tree, dir: string, names: seq<string>, parsers: Parsers)
    requires ListsDirectory(t, dir, names)
    ensures PageFilesSpec(t, dir, names, parsers).Ok?
            <==> forall n :: '/' !in n && Exists(t, Join(dir, n)) ==> Join(dir, n) in t.files
    ensures PageFilesSpec(t, dir, names, parsers).Ok? ==>
              forall k :: k in PageFilesSpec(t, dir, names, parsers).value
                          <==> k != ProtoKey && exists n :: '/' !in n && Join(dir, n) in t.files && PageFileKey(n) == Some(k)
  {
    if PageFilesSpec(t, dir, names, parsers).Ok? {
      PageFilesKeys(t, dir, names, parsers);
      forall k | k != ProtoKey && (exists n :: '/' !in n && Join(dir, n) in t.files && PageFileKey(n) == Some(k))
        ensures exists i :: 0 <= i < |names| && PageFileKey(names[i]) == Some(k)
      {
        var n :| '/' !in n && Join(dir, n) in t.files && PageFileKey(n) == Some(k);
        assert n in names;
        var i :| 0 <= i < |names| && names[i] == n;
      }
    } else {
      var i :| 0 <= i < |names| && Join(dir, names[i]) !in t.files;
      assert '/' !in names[i] && Exists(t, Join(dir, names[i]));
    }
  }

  /** Lines 118-139: `contextFromPageSpecificFiles[page]`, present only when
      `src/data/page_specific/<page>` exists. */
  function PageSpecificLayer(t: Tree, page: string, parsers: Parsers): (r: Result<Option<Context>, BuildError>)
    ensures !Exists(t, PageSpecificDir(page)) ==> r == Ok(None)
    ensures r.Err? ==> r.error.ReadFailed?
    ensures r.Ok? && r.value.Some? ==> PageSpecificDir(page) in t.dirs
    ensures PageSpecificDir(page) in t.dirs ==>
              r == match PageFilesSpec(t, PageSpecificDir(page), parsers.readdir(PageSpecificDir(page)), parsers)
                   case Err(e) => Err(e)
                   case Ok(c) => Ok(Some(c))
  {
    var dir := PageSpecificDir(page);
    if dir in t.dirs then
      match PageFilesSpec(t, dir, parsers.readdir(dir), parsers)
      case Err(e) => Err(e)
      case Ok(c) => Ok(Some(c))
    else if dir in t.files then Err(ReadFailed(Enotdir(dir)))
    else Ok(None)
  }

  /** Lines 117-140 of the page loop. */
  method ReadPageSpecificFiles(fs: FileStore, page: string, parsers: Parsers)
    returns (r: Result<Option<Context>, BuildError>)
    ensures r == PageSpecificLayer(fs.State(), page, parsers)
  {
    var dir := PageSpecificDir(page);
    if !(dir in fs.files || dir in fs.dirs) {
      return Ok(None);
    }
    if dir !in fs.dirs {
      return Err(ReadFailed(Enotdir(dir)));
    }
    var names := parsers.readdir(dir);
    var ctx: Context := map[];
    for i := 0 to |names|
      invariant PageFilesSpec(fs.State(), dir, names[..i], parsers) == Ok(ctx)
    {
      assert names[..i + 1][..i] == names[..i];
      var text := fs.ReadFile(Join(dir, names[i]));
      if text.Err? {
        PageFilesStops(fs.State(), dir, names, parsers, i);
        return Err(ReadFailed(text.error));
      }
      var key := PageFileKey(names[i]);
      if key.Some? {
        ctx := SetProperty(ctx, key.value, PageFileValue(names[i], text.value, parsers));
      }
    }
    assert names[..|names|] == names;
    return Ok(Some(ctx));
  }

  /** Strict code-point order on strings, the order `strcmp` gives. */
  predicate Below(a: string, b: string)
    decreases |a|
  {
    if |a| == 0 then |b| > 0
    else |b| > 0 && (a[0] < b[0] || (a[0] == b[0] && Below(a[1..], b[1..])))
  }

  /** A listing in ascending code-point order, as readdir returns it on Unix. */
  predicate Ascending(names: seq<string>) {
    forall i, j :: 0 <= i < j < |names| ==> Below(names[i], names[j])
  }

  lemma {:induction false} BelowIrreflexive(a: string)
    ensures !Below(a, a)
    decreases |a|
  {
    if |a| > 0 {
      BelowIrreflexive(a[1..]);
    }
  }

  lemma {:induction false} MarkdownBeforeYaml(base: string)
    ensures Below(base + ".md", base + ".yaml")
    ensures !Below(base + ".yaml", base + ".md")
    decreases |base|
  {
    if |base| > 0 {
      assert (base + ".md")[1..] == base[1..] + ".md";
      assert (base + ".yaml")[1..] == base[1..] + ".yaml";
      MarkdownBeforeYaml(base[1..]);
    } else {
      assert (".md")[1..] == "md" && (".yaml")[1..] == "yaml";
    }
  }

  /** Only `<base>.md` and `<base>.yaml` contribute the key `<base>`. */
  lemma KeyOwners(name: string, base: string)
    requires PageFileKey(name) == Some(base)
    ensures name == base + ".md" || name == base + ".yaml"
  {
  }

  /** With the listing in code-point order, `x.md` is listed before `x.yaml`,
      so when both exist the YAML value is the one the context keeps (unless `x`
      is `__proto__`, which keeps neither). */
  lemma YamlWinsInAscendingListing(t: Tree, dir: string, names: seq<string>, parsers: Parsers,
                                   base: string, iy: nat)
    requires Ascending(names)
    requires iy < |names| && names[iy] == base + ".yaml"
    requires PageFilesSpec(t, dir, names, parsers).Ok?
    ensures base == ProtoKey ==> base !in PageFilesSpec(t, dir, names, parsers).value
    ensures base != ProtoKey ==>
              && base in PageFilesSpec(t, dir, names, parsers).value
              && PageFilesSpec(t, dir, names, parsers).value[base]
                 == parsers.parseYaml(t.files[Join(dir, base + ".yaml")])
  {
    var yaml := base + ".yaml";
    assert EndsWith(yaml, ".yaml") && yaml[..|yaml| - 5] == base;
    assert !EndsWith(yaml, ".md") by {
      assert yaml[|yaml| - 1] == 'l';
    }
    assert PageFileKey(yaml) == Some(base);
    forall j | iy < j < |names|
      ensures PageFileKey(names[j]) != Some(base)
    {
      if PageFileKey(names[j]) == Some(base) {
        KeyOwners(names[j], base);
        assert Below(yaml, names[j]);
        if names[j] == yaml {
          BelowIrreflexive(yaml);
        } else {
          MarkdownBeforeYaml(base);
        }
      }
    }
    assert LastWithKey(names, iy);
    PageFilesLastWins(t, dir, names, parsers, iy);
  }

  /** The manifest page's full context, lowest precedence first: `page_name`,
      the inline `context`, the specified context, `imageMapping` and
      `chainData`, then the page-specific files. Spread copies an own
      `__proto__`; `Object.assign`, used only when there are page-specific
      files, assigns it and so keeps none. */
  function ComposeContext(page: string, inline: Value, specified: Context, imageMapping: Value,
                          chainData: Value, pageFiles: Option<Context>): (c: Context)
    ensures forall k :: k in c <==>
              && (|| k in {"page_name", "imageMapping", "chainData"}
                  || k in Spread(inline) || k in specified
                  || (pageFiles.Some? && k in pageFiles.value))
              && (pageFiles.None? || k != ProtoKey)
    ensures forall k :: k in c ==>
              c[k] == if pageFiles.Some? && k in pageFiles.value then pageFiles.value[k]
                      else if k == "chainData" then chainData
                      else if k == "imageMapping" then imageMapping
                      else if k in specified then specified[k]
                      else if k in Spread(inline) then Spread(inline)[k]
                      else Str(page)
  {
    var layered := map["page_name" := Str(page)] + Spread(inline) + specified
                   + map["imageMapping" := imageMapping, "chainData" := chainData];
    if pageFiles.Some? then (layered + pageFiles.value) - {ProtoKey} else layered
  }
}
