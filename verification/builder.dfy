/** The page-generation chapters of the primary build: the manifest loop over
    `src/data/pages.yaml`, the show and song factory loops, and the build as a
    whole. */
module Builder {

  import opened Wrappers
  import opened Values
  import opened Paths
  import opened Files
  import opened BuildErrors
  import opened Rendering
  import opened ChainData
  import opened PageContext

  /** What every page of one build sees: the configured directories, the image
      mapping, the chain data and `dataAvailableAsContext`. */
  datatype Globals = Globals(roots: Roots, imageMapping: Value, chainData: Value, registry: map<string, Value>)

  /** The libraries the build calls: Handlebars, marked, js-yaml and readdir. */
  datatype Libraries = Libraries(render: Renderer, parsers: Parsers)

  /** `path.join(outputBaseDir, templateName).replace(/\.hbs$/, '.html')`: the
      output mirrors the template name, with only a final `.hbs` turned into `.html`. */
  function ManifestOutputPath(roots: Roots, template: string): (p: string)
    ensures EndsWith(template, ".hbs") ==> p == Join(roots.outputBaseDir, StripSuffix(template, ".hbs") + ".html")
    ensures !EndsWith(template, ".hbs") ==> p == Join(roots.outputBaseDir, template)
  {
    JoinEndsWith(roots.outputBaseDir, template, ".hbs");
    ReplaceSuffix(Join(roots.outputBaseDir, template), ".hbs", ".html")
  }

  /** The template a manifest page renders: `path.join(pageBaseDir, templateName)`. */
  function ManifestTemplatePath(roots: Roots, template: string): string {
    Join(roots.pageBaseDir, template)
  }

  /** Lines 142-202 of the page loop, once the page-specific files are known:
      make the output directory, read the template, build the specified context,
      compose the full context, render body then layout, write. */
  function ManifestRender(t: Tree, g: Globals, lib: Libraries, page: string, spec: PageSpec,
                          pageFiles: Option<Context>)
    : (res: (Tree, Result<string, BuildError>))
    // the output directory is made before anything can fail
    ensures res.0.dirs == EnsureDir(t, Dirname(ManifestOutputPath(g.roots, spec.template))).dirs
    // a failing page writes nothing
    ensures res.1.Err? ==> res.0.files == t.files
    ensures res.1.Err? ==> res.1.error.ReadFailed? || res.1.error.MissingDataSection?
    // an unreadable template is reported before any missing data section
    ensures ManifestTemplatePath(g.roots, spec.template) !in t.files ==> res.1.Err? && res.1.error.ReadFailed?
    // a page succeeds only if its layout, `base_template` or else `base.hbs`, is readable
    ensures res.1.Ok? ==> LayoutPath(g.roots, LayoutOrDefault(spec.baseTemplate)) in t.files
    // what is written is what is rendered: the layout around the body, against the layered context
    ensures res.1.Ok? ==>
      var t1 := EnsureDir(t, Dirname(ManifestOutputPath(g.roots, spec.template)));
      && ManifestTemplatePath(g.roots, spec.template) in t.files
      && SpecifiedContextSpec(t1, page, spec, g.chainData, g.registry, lib.parsers).Ok?
      && res.1.value == ComposePage(lib.render, t.files[ManifestTemplatePath(g.roots, spec.template)],
                                    t.files[LayoutPath(g.roots, LayoutOrDefault(spec.baseTemplate))],
                                    ComposeContext(page, spec.context,
                                                   SpecifiedContextSpec(t1, page, spec, g.chainData, g.registry, lib.parsers).value,
                                                   g.imageMapping, g.chainData, pageFiles))
      && res.0.files == t.files[ManifestOutputPath(g.roots, spec.template) := res.1.value]
  {
    var out := ManifestOutputPath(g.roots, spec.template);
    var t1 := EnsureDir(t, Dirname(out));
    match Read(t1, ManifestTemplatePath(g.roots, spec.template))
    case Err(e) => (t1, Err(ReadFailed(e)))
    case Ok(source) =>
      match SpecifiedContextSpec(t1, page, spec, g.chainData, g.registry, lib.parsers)
      case Err(e) => (t1, Err(e))
      case Ok(specified) =>
        var ctx := ComposeContext(page, spec.context, specified, g.imageMapping, g.chainData, pageFiles);
        match Read(t1, LayoutPath(g.roots, LayoutOrDefault(spec.baseTemplate)))
        case Err(e) => (t1, Err(ReadFailed(e)))
        case Ok(layoutSource) =>
          var html := ComposePage(lib.render, source, layoutSource, ctx);
          (Write(t1, out, html), Ok(html))
  }

  /** A page renders when its template and layout are readable, its YAML is
      readable if it asks for it, and every data section it requests resolves. */
  lemma ManifestRenderSucceeds(t: Tree, g: Globals, lib: Libraries, page: string, spec: PageSpec,
                               pageFiles: Option<Context>)
    requires ManifestTemplatePath(g.roots, spec.template) in t.files
    requires spec.contextFromYaml == Bool(true) ==> PageYamlPath(page) in t.files
    requires spec.dataSections.Some? ==> FirstUnresolved(g.registry, spec.dataSections.value).None?
    requires LayoutPath(g.roots, LayoutOrDefault(spec.baseTemplate)) in t.files
    ensures ManifestRender(t, g, lib, page, spec, pageFiles).1.Ok?
  {
    var t1 := EnsureDir(t, Dirname(ManifestOutputPath(g.roots, spec.template)));
    assert SpecifiedContextSpec(t1, page, spec, g.chainData, g.registry, lib.parsers).Ok?;
  }

  /** One iteration of the page loop: the page-specific files, then the render. */
  function ManifestStep(t: Tree, g: Globals, lib: Libraries, page: string, spec: PageSpec)
    : (Tree, Result<string, BuildError>)
  {
    match PageSpecificLayer(t, page, lib.parsers)
    case Err(e) => (t, Err(e))
    case Ok(pageFiles) => ManifestRender(t, g, lib, page, spec, pageFiles)
  }

  /** The page loop over the manifest's pages in key order; the first exception
      ends the build. */
  function ManifestRun(t: Tree, g: Globals, lib: Libraries, pages: seq<(string, PageSpec)>)
    : (res: (Tree, Result<(), BuildError>))
    decreases |pages|
    // the page loop throws only an unreadable file or a missing data section
    ensures res.1.Err? ==> res.1.error.ReadFailed? || res.1.error.MissingDataSection?
  {
    if |pages| == 0 then (t, Ok(()))
    else
      var (t', r) := ManifestRun(t, g, lib, pages[..|pages| - 1]);
      if r.Err? then (t', r)
      else
        var (t'', step) := ManifestStep(t', g, lib, pages[|pages| - 1].0, pages[|pages| - 1].1);
        (t'', if step.Err? then Err(step.error) else Ok(()))
  }

  /** The page loop threw at page `k`: every page before `k` ran to completion,
      page `k` threw the loop's error, and the files are those written before `k`. */
  predicate FailsAt(t: Tree, g: Globals, lib: Libraries, pages: seq<(string, PageSpec)>, k: nat)
    requires k < |pages|
  {
    && ManifestRun(t, g, lib, pages).1.Err?
    && ManifestRun(t, g, lib, pages[..k]).1.Ok?
    && var before := ManifestRun(t, g, lib, pages[..k]).0;
       && ManifestStep(before, g, lib, pages[k].0, pages[k].1).1.Err?
       && ManifestRun(t, g, lib, pages).1.error == ManifestStep(before, g, lib, pages[k].0, pages[k].1).1.error
       && ManifestRun(t, g, lib, pages).0.files == before.files
  }

  /** Fail-fast: when the page loop throws, it threw at some page k; every page
      before k ran to completion, their files stay as written, and page k itself
      wrote nothing. */
  lemma {:induction false} ManifestFailsFast(t: Tree, g: Globals, lib: Libraries, pages: seq<(string, PageSpec)>)
    requires ManifestRun(t, g, lib, pages).1.Err?
    ensures exists k :: 0 <= k < |pages| && FailsAt(t, g, lib, pages, k)
    decreases |pages|
  {
    var prefix := pages[..|pages| - 1];
    if ManifestRun(t, g, lib, prefix).1.Err? {
      ManifestFailsFast(t, g, lib, prefix);
      var k :| 0 <= k < |prefix| && FailsAt(t, g, lib, prefix, k);
      FailsAtPrefix(t, g, lib, pages, k);
    } else {
      FailsAtLast(t, g, lib, pages);
    }
  }

  /** A throw inside the pages but the last is the throw of the whole loop. */
  lemma FailsAtPrefix(t: Tree, g: Globals, lib: Libraries, pages: seq<(string, PageSpec)>, k: nat)
    requires k < |pages| - 1 && FailsAt(t, g, lib, pages[..|pages| - 1], k)
    ensures FailsAt(t, g, lib, pages, k)
  {
    var prefix := pages[..|pages| - 1];
    assert prefix[..k] == pages[..k] && prefix[k] == pages[k];
    assert ManifestRun(t, g, lib, pages) == ManifestRun(t, g, lib, prefix);
  }

  /** When every page but the last ran, a throw is the last page's. */
  lemma FailsAtLast(t: Tree, g: Globals, lib: Libraries, pages: seq<(string, PageSpec)>)
    requires |pages| > 0 && ManifestRun(t, g, lib, pages).1.Err?
    requires ManifestRun(t, g, lib, pages[..|pages| - 1]).1.Ok?
    ensures FailsAt(t, g, lib, pages, |pages| - 1)
  {
    var k := |pages| - 1;
    var before := ManifestRun(t, g, lib, pages[..k]).0;
    var pf := PageSpecificLayer(before, pages[k].0, lib.parsers);
    if pf.Ok? {
      assert ManifestStep(before, g, lib, pages[k].0, pages[k].1) == ManifestRender(before, g, lib, pages[k].0, pages[k].1, pf.value);
    }
  }

  /** One more page extends the loop by one step, unless it has already thrown. */
  lemma ManifestRunExtend(t: Tree, g: Globals, lib: Libraries, pages: seq<(string, PageSpec)>, i: nat)
    requires i < |pages|
    requires ManifestRun(t, g, lib, pages[..i]).1.Ok?
    ensures var step := ManifestStep(ManifestRun(t, g, lib, pages[..i]).0, g, lib, pages[i].0, pages[i].1);
            ManifestRun(t, g, lib, pages[..i + 1]) == (step.0, if step.1.Err? then Err(step.1.error) else Ok(()))
  {
    assert pages[..i + 1][..i] == pages[..i];
  }

  /** Once the loop has thrown, the remaining pages change nothing. */
  lemma {:induction false} ManifestRunStops(t: Tree, g: Globals, lib: Libraries, pages: seq<(string, PageSpec)>, k: nat)
    requires k <= |pages|
    requires ManifestRun(t, g, lib, pages[..k]).1.Err?
    ensures ManifestRun(t, g, lib, pages) == ManifestRun(t, g, lib, pages[..k])
    decreases |pages|
  {
    if k < |pages| {
      var prefix := pages[..|pages| - 1];
      assert prefix[..k] == pages[..k];
      ManifestRunStops(t, g, lib, prefix, k);
    } else {
      assert pages[..k] == pages;
    }
  }

  /** A page that renders writes its HTML to its output path and changes no
      other file. */
  lemma ManifestStepWrites(t: Tree, g: Globals, lib: Libraries, page: string, spec: PageSpec)
    requires ManifestStep(t, g, lib, page, spec).1.Ok?
    ensures ManifestStep(t, g, lib, page, spec).0.files
            == t.files[ManifestOutputPath(g.roots, spec.template) := ManifestStep(t, g, lib, page, spec).1.value]
  {
    var pf := PageSpecificLayer(t, page, lib.parsers);
    assert ManifestStep(t, g, lib, page, spec) == ManifestRender(t, g, lib, page, spec, pf.value);
  }

  /** After a page loop that did not throw, each page's output file holds the
      HTML that page rendered, over the files the pages before it left, unless a
      later page writes the same path. */
  lemma {:induction false} ManifestRunPage(t: Tree, g: Globals, lib: Libraries, pages: seq<(string, PageSpec)>, i: nat)
    requires i < |pages| && ManifestRun(t, g, lib, pages).1.Ok?
    requires forall j :: i < j < |pages| ==>
               ManifestOutputPath(g.roots, pages[j].1.template) != ManifestOutputPath(g.roots, pages[i].1.template)
    ensures ManifestRun(t, g, lib, pages[..i]).1.Ok?
    ensures var step := ManifestStep(ManifestRun(t, g, lib, pages[..i]).0, g, lib, pages[i].0, pages[i].1);
            var out := ManifestOutputPath(g.roots, pages[i].1.template);
            && step.1.Ok?
            && out in ManifestRun(t, g, lib, pages).0.files
            && ManifestRun(t, g, lib, pages).0.files[out] == step.1.value
    decreases |pages|
  {
    var n := |pages| - 1;
    var prefix := pages[..n];
    var mid := ManifestRun(t, g, lib, prefix);
    var last := ManifestStep(mid.0, g, lib, pages[n].0, pages[n].1);
    assert mid.1.Ok? && last.1.Ok? && ManifestRun(t, g, lib, pages).0 == last.0;
    ManifestStepWrites(mid.0, g, lib, pages[n].0, pages[n].1);
    if i < n {
      assert prefix[..i] == pages[..i] && prefix[i] == pages[i];
      ManifestRunPage(t, g, lib, prefix, i);
    } else {
      assert pages[..i] == prefix;
    }
  }

  /** True when every id is a single path segment, free of '/', so that
      `path.join` has nothing to normalise in a page's file name. */
  predicate PlainIds(t: Table) {
    forall i :: 0 <= i < |t| ==> '/' !in t[i].0
  }

  /** True when no page name occurs twice, as for the keys of `pageyaml`. */
  predicate DistinctPages(pages: seq<(string, PageSpec)>) {
    forall i, j :: 0 <= i < j < |pages| ==> pages[i].0 != pages[j].0
  }

  /** Lines 142-202 of the page loop. */
  method RenderManifestPage(fs: FileStore, g: Globals, lib: Libraries, page: string, spec: PageSpec,
                            pageFiles: Option<Context>)
    returns (r: Result<string, BuildError>)
    modifies fs
    ensures (fs.State(), r) == ManifestRender(old(fs.State()), g, lib, page, spec, pageFiles)
  {
    var out := ManifestOutputPath(g.roots, spec.template);
    fs.MakeDirIfMissing(Dirname(out));
    var source := fs.ReadFile(ManifestTemplatePath(g.roots, spec.template));
    if source.Err? {
      return Err(ReadFailed(source.error));
    }
    var specified := SpecifiedContext(fs, page, spec, g.chainData, g.registry, lib.parsers);
    if specified.Err? {
      return Err(specified.error);
    }
    var ctx := ComposeContext(page, spec.context, specified.value, g.imageMapping, g.chainData, pageFiles);
    var body := lib.render(source.value, ctx);
    var layoutSource := fs.ReadFile(LayoutPath(g.roots, LayoutOrDefault(spec.baseTemplate)));
    if layoutSource.Err? {
      return Err(ReadFailed(layoutSource.error));
    }
    var html := lib.render(layoutSource.value, LayoutContext(ctx, body));
    fs.WriteFile(out, html);
    return Ok(html);
  }

  /** One iteration of the page loop (lines 111-202): read the page-specific
      files into the shared dictionary, look the page up in it, and render. */
  method BuildManifestPage(fs: FileStore, g: Globals, lib: Libraries, page: string, spec: PageSpec,
                           contextFromPageSpecificFiles: map<string, Context>)
    returns (r: Result<string, BuildError>, dict: map<string, Context>)
    requires page !in contextFromPageSpecificFiles
    modifies fs
    ensures (fs.State(), r) == ManifestStep(old(fs.State()), g, lib, page, spec)
    ensures forall p :: p in dict ==> p in contextFromPageSpecificFiles || p == page
  {
    dict := contextFromPageSpecificFiles;
    var pageSpecific := ReadPageSpecificFiles(fs, page, lib.parsers);
    if pageSpecific.Err? {
      return Err(pageSpecific.error), dict;
    }
    if pageSpecific.value.Some? {
      dict := dict[page := pageSpecific.value.value];
    }
    var own := if page in dict then Some(dict[page]) else None;
    assert own == pageSpecific.value;
    r := RenderManifestPage(fs, g, lib, page, spec, own);
  }

  /** Lines 110-203: `Object.keys(pageyaml).forEach(…)`, with the shared
      `contextFromPageSpecificFiles` dictionary. */
  method BuildManifestPages(fs: FileStore, g: Globals, lib: Libraries, pages: seq<(string, PageSpec)>)
    returns (r: Result<(), BuildError>)
    requires DistinctPages(pages)
    modifies fs
    ensures (fs.State(), r) == ManifestRun(old(fs.State()), g, lib, pages)
  {
    ghost var t0 := fs.State();
    var contextFromPageSpecificFiles: map<string, Context> := map[];
    for i := 0 to |pages|
      invariant ManifestRun(t0, g, lib, pages[..i]) == (fs.State(), Ok(()))
      invariant forall j :: i <= j < |pages| ==> pages[j].0 !in contextFromPageSpecificFiles
    {
      ManifestRunExtend(t0, g, lib, pages, i);
      ghost var before := fs.State();
      var rendered;
      rendered, contextFromPageSpecificFiles := BuildManifestPage(fs, g, lib, pages[i].0, pages[i].1, contextFromPageSpecificFiles);
      assert (fs.State(), rendered) == ManifestStep(before, g, lib, pages[i].0, pages[i].1);
      if rendered.Err? {
        ManifestRunStops(t0, g, lib, pages, i + 1);
        return Err(rendered.error);
      }
    }
    assert pages[..|pages|] == pages;
    return Ok(());
  }

  /** One page of a factory loop: where it goes and the context it renders with. */
  datatype FactoryPage = FactoryPage(outputPath: string, context: Context)

  const ShowTemplate: string := "reuse/single-show.hbs"
  const SongTemplate: string := "reuse/single-song.hbs"

  /** The show page of `Object.entries(shows)`: written to `shows/<id>.html`,
      with the page name `show_<id>`, the show's title, the show itself, the
      image mapping, the chain data and the latest git commit. */
  function ShowPage(g: Globals, showId: string, show: Value, gitCommit: string): FactoryPage {
    FactoryPage("shows/" + showId + ".html",
                map["page_name" := Str("show_" + showId), "page_title" := Member(show, "title"),
                    "show" := show, "imageMapping" := g.imageMapping, "chainData" := g.chainData,
                    "_latest_git_commit" := Str(gitCommit)])
  }

  /** The song page of `Object.entries(songs)`: written to `songs/<slug>.html`,
      with the page name `song_<slug>`, the song's title, every show, the song,
      the image mapping and the chain data. */
  function SongPage(g: Globals, slug: string, song: Value, shows: Value): FactoryPage {
    FactoryPage("songs/" + slug + ".html",
                map["page_name" := Str("song_" + slug), "page_title" := Member(song, "title"),
                    "shows" := shows, "song" := song, "imageMapping" := g.imageMapping,
                    "chainData" := g.chainData])
  }

  function ShowPages(g: Globals, shows: Table, gitCommit: string): seq<FactoryPage> {
    seq(|shows|, i requires 0 <= i < |shows| => ShowPage(g, shows[i].0, shows[i].1, gitCommit))
  }

  function SongPages(g: Globals, songs: Table, shows: Value): seq<FactoryPage> {
    seq(|songs|, i requires 0 <= i < |songs| => SongPage(g, songs[i].0, songs[i].1, shows))
  }

  /** A factory loop: `renderPage` for each page with the same content template
      and the default layout; the first exception ends the build. */
  function FactoryRun(t: Tree, roots: Roots, render: Renderer, template: string, pages: seq<FactoryPage>)
    : (Tree, Result<(), IoError>)
    decreases |pages|
  {
    if |pages| == 0 then (t, Ok(()))
    else
      var (t', r) := FactoryRun(t, roots, render, template, pages[..|pages| - 1]);
      if r.Err? then (t', r)
      else
        var p := pages[|pages| - 1];
        var (t'', step) := RenderPageSpec(t', roots, render, template, p.context, p.outputPath, None);
        (t'', if step.Err? then Err(step.error) else Ok(()))
  }

  /** True when some page of the loop writes `f`. */
  predicate Written(roots: Roots, pages: seq<FactoryPage>, f: string) {
    exists i :: 0 <= i < |pages| && f == OutputFile(roots, pages[i].outputPath)
  }

  /** A file no page writes keeps its content, whether or not the loop throws. */
  lemma {:induction false} FactoryRunKeeps(t: Tree, roots: Roots, render: Renderer, template: string,
                                           pages: seq<FactoryPage>, f: string)
    requires f in t.files && !Written(roots, pages, f)
    ensures f in FactoryRun(t, roots, render, template, pages).0.files
    ensures FactoryRun(t, roots, render, template, pages).0.files[f] == t.files[f]
    decreases |pages|
  {
    if |pages| > 0 {
      var prefix := pages[..|pages| - 1];
      FactoryRunKeeps(t, roots, render, template, prefix, f);
    }
  }

  /** True when no page of the loop writes over the content template or the layout. */
  predicate SourcesKept(roots: Roots, template: string, pages: seq<FactoryPage>) {
    !Written(roots, pages, Join(roots.templateDir, template)) && !Written(roots, pages, LayoutPath(roots, DefaultLayout))
  }

  /** A factory loop succeeds exactly when there is nothing to render or both the
      content template and the layout are readable; otherwise its very first page
      fails, naming the first missing source, and no file is written. */
  lemma {:induction false} FactoryRunSucceeds(t: Tree, roots: Roots, render: Renderer, template: string,
                                              pages: seq<FactoryPage>)
    requires SourcesKept(roots, template, pages)
    ensures var (t', r) := FactoryRun(t, roots, render, template, pages);
      var source := Join(roots.templateDir, template);
      var layout := LayoutPath(roots, DefaultLayout);
      && (r.Ok? <==> |pages| == 0 || (source in t.files && layout in t.files))
      && (r.Err? ==> t'.files == t.files && r.error.path == (if source !in t.files then source else layout))
    decreases |pages|
  {
    if |pages| > 0 {
      var prefix := pages[..|pages| - 1];
      assert SourcesKept(roots, template, prefix) by {
        forall f | Written(roots, prefix, f) ensures Written(roots, pages, f) {
          var i :| 0 <= i < |prefix| && f == OutputFile(roots, prefix[i].outputPath);
          assert pages[i] == prefix[i];
        }
      }
      FactoryRunSucceeds(t, roots, render, template, prefix);
      var source := Join(roots.templateDir, template);
      var layout := LayoutPath(roots, DefaultLayout);
      var (tp, rp) := FactoryRun(t, roots, render, template, prefix);
      if rp.Ok? && |prefix| > 0 {
        FactoryRunKeeps(t, roots, render, template, prefix, source);
        FactoryRunKeeps(t, roots, render, template, prefix, layout);
      }
    }
  }

  /** A page's membership in `Written` grows one page at a time. */
  lemma WrittenSnoc(roots: Roots, pages: seq<FactoryPage>, f: string)
    requires |pages| > 0
    ensures Written(roots, pages, f)
            <==> Written(roots, pages[..|pages| - 1], f) || f == OutputFile(roots, pages[|pages| - 1].outputPath)
  {
    var prefix := pages[..|pages| - 1];
    if Written(roots, prefix, f) {
      var i :| 0 <= i < |prefix| && f == OutputFile(roots, prefix[i].outputPath);
      assert pages[i] == prefix[i];
    }
    if Written(roots, pages, f) && f != OutputFile(roots, pages[|pages| - 1].outputPath) {
      var i :| 0 <= i < |pages| && f == OutputFile(roots, pages[i].outputPath);
      assert prefix[i] == pages[i];
    }
  }

  /** The last page of a successful loop writes its render over the files the
      earlier pages left. */
  lemma FactoryRunLast(t: Tree, roots: Roots, render: Renderer, template: string, pages: seq<FactoryPage>)
    requires |pages| > 0 && FactoryRun(t, roots, render, template, pages).1.Ok?
    ensures var before := FactoryRun(t, roots, render, template, pages[..|pages| - 1]);
            var last := pages[|pages| - 1];
            && before.1.Ok?
            && Join(roots.templateDir, template) in before.0.files
            && LayoutPath(roots, DefaultLayout) in before.0.files
            && FactoryRun(t, roots, render, template, pages).0.files
               == before.0.files[OutputFile(roots, last.outputPath) :=
                    ComposePage(render, before.0.files[Join(roots.templateDir, template)],
                                before.0.files[LayoutPath(roots, DefaultLayout)], last.context)]
  {
  }

  /** After a successful factory loop the files are the old ones plus one per
      page. */
  lemma {:induction false} FactoryRunFiles(t: Tree, roots: Roots, render: Renderer, template: string,
                                           pages: seq<FactoryPage>, f: string)
    requires FactoryRun(t, roots, render, template, pages).1.Ok?
    ensures f in FactoryRun(t, roots, render, template, pages).0.files <==> f in t.files || Written(roots, pages, f)
    decreases |pages|
  {
    if |pages| > 0 {
      FactoryRunLast(t, roots, render, template, pages);
      FactoryRunFiles(t, roots, render, template, pages[..|pages| - 1], f);
      WrittenSnoc(roots, pages, f);
    }
  }

  /** The files a factory loop leaves when every page renders `source` inside
      `layout`: one write per page, in order. */
  function PagesWritten(files: map<string, string>, roots: Roots, render: Renderer, source: string, layout: string,
                        pages: seq<FactoryPage>): map<string, string>
    decreases |pages|
  {
    if |pages| == 0 then files
    else
      var last := pages[|pages| - 1];
      PagesWritten(files, roots, render, source, layout, pages[..|pages| - 1])
        [OutputFile(roots, last.outputPath) := ComposePage(render, source, layout, last.context)]
  }

  /** A page that no later page writes over holds its own render. */
  lemma {:induction false} PagesWrittenAt(files: map<string, string>, roots: Roots, render: Renderer,
                                          source: string, layout: string, pages: seq<FactoryPage>, i: nat)
    requires i < |pages|
    requires !Written(roots, pages[i + 1..], OutputFile(roots, pages[i].outputPath))
    ensures OutputFile(roots, pages[i].outputPath) in PagesWritten(files, roots, render, source, layout, pages)
    ensures PagesWritten(files, roots, render, source, layout, pages)[OutputFile(roots, pages[i].outputPath)]
            == ComposePage(render, source, layout, pages[i].context)
    decreases |pages|
  {
    var n := |pages| - 1;
    if i < n {
      var prefix := pages[..n];
      var out := OutputFile(roots, pages[i].outputPath);
      assert out != OutputFile(roots, pages[n].outputPath) by {
        assert pages[i + 1..][n - i - 1] == pages[n];
      }
      assert prefix[i] == pages[i];
      var rest := prefix[i + 1..];
      assert !Written(roots, rest, out) by {
        forall k | 0 <= k < |rest| ensures out != OutputFile(roots, rest[k].outputPath) {
          assert rest[k] == pages[i + 1..][k];
        }
      }
      PagesWrittenAt(files, roots, render, source, layout, prefix, i);
    }
  }

  /** A successful factory loop that kept its sources writes exactly
      `PagesWritten` over the files it started from. */
  lemma {:induction false} FactoryRunWrites(t: Tree, roots: Roots, render: Renderer, template: string,
                                            pages: seq<FactoryPage>)
    requires |pages| > 0 && SourcesKept(roots, template, pages)
    requires FactoryRun(t, roots, render, template, pages).1.Ok?
    ensures Join(roots.templateDir, template) in t.files && LayoutPath(roots, DefaultLayout) in t.files
    ensures FactoryRun(t, roots, render, template, pages).0.files
            == PagesWritten(t.files, roots, render, t.files[Join(roots.templateDir, template)],
                            t.files[LayoutPath(roots, DefaultLayout)], pages)
    decreases |pages|
  {
    FactoryRunSucceeds(t, roots, render, template, pages);
    var prefix := pages[..|pages| - 1];
    FactoryRunLast(t, roots, render, template, pages);
    if |prefix| > 0 {
      assert SourcesKept(roots, template, prefix) by {
        forall f | Written(roots, prefix, f) ensures Written(roots, pages, f) {
          WrittenSnoc(roots, pages, f);
        }
      }
      FactoryRunWrites(t, roots, render, template, prefix);
      FactoryRunKeeps(t, roots, render, template, prefix, Join(roots.templateDir, template));
      FactoryRunKeeps(t, roots, render, template, prefix, LayoutPath(roots, DefaultLayout));
    } else {
      assert prefix == [];
    }
  }

  /** After a successful factory loop that kept its sources, a page that no
      later page writes over holds its own two-stage render. */
  lemma {:induction false} FactoryRunPage(t: Tree, roots: Roots, render: Renderer, template: string,
                                          pages: seq<FactoryPage>, i: nat)
    requires SourcesKept(roots, template, pages)
    requires FactoryRun(t, roots, render, template, pages).1.Ok?
    requires i < |pages|
    requires !Written(roots, pages[i + 1..], OutputFile(roots, pages[i].outputPath))
    ensures Join(roots.templateDir, template) in t.files && LayoutPath(roots, DefaultLayout) in t.files
    ensures OutputFile(roots, pages[i].outputPath) in FactoryRun(t, roots, render, template, pages).0.files
    ensures FactoryRun(t, roots, render, template, pages).0.files[OutputFile(roots, pages[i].outputPath)]
            == ComposePage(render, t.files[Join(roots.templateDir, template)], t.files[LayoutPath(roots, DefaultLayout)],
                           pages[i].context)
    decreases |pages|
  {
    FactoryRunWrites(t, roots, render, template, pages);
    PagesWrittenAt(t.files, roots, render, t.files[Join(roots.templateDir, template)],
                   t.files[LayoutPath(roots, DefaultLayout)], pages, i);
  }

  /** `Join(base, "shows/" + id + ".html")` tells the show apart; so for
      songs. */
  lemma FactoryFileInjective(base: string, dir: string, a: string, b: string)
    requires '/' !in a && '/' !in b
    requires Join(base, dir + a + ".html") == Join(base, dir + b + ".html")
    ensures a == b
  {
    var n := |base| + 1 + |dir|;
    assert |a| == |b|;
    assert a == Join(base, dir + a + ".html")[n..n + |a|];
    assert b == Join(base, dir + b + ".html")[n..n + |b|];
  }

  /** A factory output never lands on a template: pages end in `.html`,
      templates in `.hbs`. */
  lemma HtmlIsNotHbs(base: string, page: string, dir: string, template: string)
    ensures Join(base, page + ".html") != Join(dir, template + ".hbs")
  {
    assert Join(base, page + ".html")[|Join(base, page + ".html")| - 1] == 'l';
    assert Join(dir, template + ".hbs")[|Join(dir, template + ".hbs")| - 1] == 's';
  }

  /** `renderPage` for each page in turn (lines 219-257 for shows, 263-295 for songs). */
  method RenderFactoryPages(fs: FileStore, roots: Roots, render: Renderer, template: string, pages: seq<FactoryPage>)
    returns (r: Result<(), IoError>)
    modifies fs
    ensures (fs.State(), r) == FactoryRun(old(fs.State()), roots, render, template, pages)
  {
    ghost var t0 := fs.State();
    for i := 0 to |pages|
      invariant FactoryRun(t0, roots, render, template, pages[..i]) == (fs.State(), Ok(()))
    {
      assert pages[..i + 1][..i] == pages[..i];
      var page := RenderPage(fs, roots, render, template, pages[i].context, pages[i].outputPath, None);
      if page.Err? {
        FactoryRunStops(t0, roots, render, template, pages, i + 1);
        return Err(page.error);
      }
    }
    assert pages[..|pages|] == pages;
    return Ok(());
  }

  /** Once a factory loop has thrown, the remaining pages change nothing. */
  lemma {:induction false} FactoryRunStops(t: Tree, roots: Roots, render: Renderer, template: string,
                                           pages: seq<FactoryPage>, k: nat)
    requires k <= |pages|
    requires FactoryRun(t, roots, render, template, pages[..k]).1.Err?
    ensures FactoryRun(t, roots, render, template, pages) == FactoryRun(t, roots, render, template, pages[..k])
    decreases |pages|
  {
    if k < |pages| {
      var prefix := pages[..|pages| - 1];
      assert prefix[..k] == pages[..k];
      FactoryRunStops(t, roots, render, template, prefix, k);
    } else {
      assert pages[..k] == pages;
    }
  }

  /** Every page of a factory loop that succeeded, kept its sources and wrote
      each file once holds its own two-stage render. */
  lemma FactoryRunAllPages(t: Tree, roots: Roots, render: Renderer, template: string, pages: seq<FactoryPage>)
    requires SourcesKept(roots, template, pages)
    requires FactoryRun(t, roots, render, template, pages).1.Ok?
    requires forall i, j :: 0 <= i < j < |pages| ==> OutputFile(roots, pages[i].outputPath) != OutputFile(roots, pages[j].outputPath)
    ensures |pages| > 0 ==> Join(roots.templateDir, template) in t.files && LayoutPath(roots, DefaultLayout) in t.files
    ensures forall i :: 0 <= i < |pages| ==>
              && OutputFile(roots, pages[i].outputPath) in FactoryRun(t, roots, render, template, pages).0.files
              && FactoryRun(t, roots, render, template, pages).0.files[OutputFile(roots, pages[i].outputPath)]
                 == ComposePage(render, t.files[Join(roots.templateDir, template)],
                                t.files[LayoutPath(roots, DefaultLayout)], pages[i].context)
  {
    FactoryRunSucceeds(t, roots, render, template, pages);
    forall i | 0 <= i < |pages|
      ensures && OutputFile(roots, pages[i].outputPath) in FactoryRun(t, roots, render, template, pages).0.files
              && FactoryRun(t, roots, render, template, pages).0.files[OutputFile(roots, pages[i].outputPath)]
                 == ComposePage(render, t.files[Join(roots.templateDir, template)],
                                t.files[LayoutPath(roots, DefaultLayout)], pages[i].context)
    {
      LaterPagesDiffer(roots, pages, i);
      FactoryRunPage(t, roots, render, template, pages, i);
    }
  }

  lemma LaterPagesDiffer(roots: Roots, pages: seq<FactoryPage>, i: nat)
    requires i < |pages|
    requires forall i, j :: 0 <= i < j < |pages| ==> OutputFile(roots, pages[i].outputPath) != OutputFile(roots, pages[j].outputPath)
    ensures !Written(roots, pages[i + 1..], OutputFile(roots, pages[i].outputPath))
  {
    var rest := pages[i + 1..];
    forall k | 0 <= k < |rest| ensures OutputFile(roots, pages[i].outputPath) != OutputFile(roots, rest[k].outputPath) {
      assert rest[k] == pages[i + 1 + k];
    }
  }

  /** No page of a factory loop writing `dir + <id> + ".html"` lands on a template. */
  lemma HtmlPagesKeepSources(roots: Roots, template: string, dir: string, ids: seq<string>, pages: seq<FactoryPage>)
    requires EndsWith(template, ".hbs")
    requires |pages| == |ids|
    requires forall i :: 0 <= i < |pages| ==> pages[i].outputPath == dir + ids[i] + ".html"
    ensures SourcesKept(roots, template, pages)
  {
    forall i | 0 <= i < |pages|
      ensures OutputFile(roots, pages[i].outputPath) != Join(roots.templateDir, template)
      ensures OutputFile(roots, pages[i].outputPath) != LayoutPath(roots, DefaultLayout)
    {
      HtmlIsNotHbs(roots.outputBaseDir, dir + ids[i], roots.templateDir, StripSuffix(template, ".hbs"));
      HtmlIsNotHbs(roots.outputBaseDir, dir + ids[i], Join(roots.templateDir, "layouts"), "base");
      assert DefaultLayout == "base" + ".hbs";
    }
  }

  /** The show loop (lines 219-257): when it succeeds, every show has its own page
      at `shows/<id>.html`, the single-show template inside `base.hbs`, rendered
      against that show's context. */
  lemma ShowPagesRendered(t: Tree, g: Globals, render: Renderer, shows: Table, gitCommit: string)
    requires DistinctIds(shows) && PlainIds(shows)
    requires FactoryRun(t, g.roots, render, ShowTemplate, ShowPages(g, shows, gitCommit)).1.Ok?
    ensures |shows| > 0 ==> Join(g.roots.templateDir, ShowTemplate) in t.files && LayoutPath(g.roots, DefaultLayout) in t.files
    ensures forall i :: 0 <= i < |shows| ==>
              var f := OutputFile(g.roots, "shows/" + shows[i].0 + ".html");
              var t' := FactoryRun(t, g.roots, render, ShowTemplate, ShowPages(g, shows, gitCommit)).0;
              && f in t'.files
              && t'.files[f] == ComposePage(render, t.files[Join(g.roots.templateDir, ShowTemplate)],
                                            t.files[LayoutPath(g.roots, DefaultLayout)],
                                            ShowPage(g, shows[i].0, shows[i].1, gitCommit).context)
  {
    var pages := ShowPages(g, shows, gitCommit);
    assert EndsWith(ShowTemplate, ".hbs");
    HtmlPagesKeepSources(g.roots, ShowTemplate, "shows/", Ids(shows), pages);
    forall i, j | 0 <= i < j < |pages| ensures OutputFile(g.roots, pages[i].outputPath) != OutputFile(g.roots, pages[j].outputPath) {
      if OutputFile(g.roots, pages[i].outputPath) == OutputFile(g.roots, pages[j].outputPath) {
        FactoryFileInjective(g.roots.outputBaseDir, "shows/", shows[i].0, shows[j].0);
      }
    }
    FactoryRunAllPages(t, g.roots, render, ShowTemplate, pages);
  }

  /** The song loop (lines 263-295): when it succeeds, every song has its own page
      at `songs/<slug>.html`, the single-song template inside `base.hbs`, rendered
      against that song's context. */
  lemma SongPagesRendered(t: Tree, g: Globals, render: Renderer, songs: Table, shows: Value)
    requires DistinctIds(songs) && PlainIds(songs)
    requires FactoryRun(t, g.roots, render, SongTemplate, SongPages(g, songs, shows)).1.Ok?
    ensures |songs| > 0 ==> Join(g.roots.templateDir, SongTemplate) in t.files && LayoutPath(g.roots, DefaultLayout) in t.files
    ensures forall i :: 0 <= i < |songs| ==>
              var f := OutputFile(g.roots, "songs/" + songs[i].0 + ".html");
              var t' := FactoryRun(t, g.roots, render, SongTemplate, SongPages(g, songs, shows)).0;
              && f in t'.files
              && t'.files[f] == ComposePage(render, t.files[Join(g.roots.templateDir, SongTemplate)],
                                            t.files[LayoutPath(g.roots, DefaultLayout)],
                                            SongPage(g, songs[i].0, songs[i].1, shows).context)
  {
    var pages := SongPages(g, songs, shows);
    assert EndsWith(SongTemplate, ".hbs");
    HtmlPagesKeepSources(g.roots, SongTemplate, "songs/", Ids(songs), pages);
    forall i, j | 0 <= i < j < |pages| ensures OutputFile(g.roots, pages[i].outputPath) != OutputFile(g.roots, pages[j].outputPath) {
      if OutputFile(g.roots, pages[i].outputPath) == OutputFile(g.roots, pages[j].outputPath) {
        FactoryFileInjective(g.roots.outputBaseDir, "songs/", songs[i].0, songs[j].0);
      }
    }
    FactoryRunAllPages(t, g.roots, render, SongTemplate, pages);
  }

  /** Everything the build takes from outside the core: the configured roots, the
      `SKIP_CHAIN_DATA_FETCH` variable, what a fetch would return, the chain-data
      cache codec, the image mapping, the show and song tables, the page manifest,
      the commit hash `git rev-parse HEAD` prints, and `appendChainDataToShows`
      applied to one show. */
  datatype BuildInputs = BuildInputs(roots: Roots, skipEnv: Option<string>, fetched: Value, codec: Codec,
                                     imageMapping: Value, songs: Table, shows: Table, songsByProvenance: Value,
                                     manifest: seq<(string, PageSpec)>, gitCommit: string,
                                     appendChainData: (string, Value, Value) -> Value)

  /** Shows, songs and manifest pages are object keys, so none repeats. */
  predicate WellFormedInputs(input: BuildInputs) {
    DistinctIds(input.shows) && DistinctIds(input.songs) && DistinctPages(input.manifest)
  }

  /** The shows once `appendChainDataToShows` has run over them. */
  function EnrichedShows(shows: Table, chainData: Value, appendChainData: (string, Value, Value) -> Value)
    : (r: Table)
    ensures Ids(r) == Ids(shows)
    ensures DistinctIds(shows) ==> DistinctIds(r)
  {
    seq(|shows|, i requires 0 <= i < |shows| => (shows[i].0, appendChainData(shows[i].0, shows[i].1, chainData)))
  }

  /** What every page sees once the chain data is loaded (lines 79-87). */
  function BuildGlobals(input: BuildInputs, chainData: Value): Globals
    requires WellFormedInputs(input)
  {
    var shows := EnrichedShows(input.shows, chainData, input.appendChainData);
    Globals(input.roots, input.imageMapping, chainData,
            Readable(DataAvailableAsContext(AsObject(input.songs), AsObject(shows), input.songsByProvenance)))
  }

  /** The file system after the build, and whether it threw. */
  function BuildSpec(t: Tree, input: BuildInputs, lib: Libraries): (res: (Tree, Result<(), BuildError>))
    requires WellFormedInputs(input)
    // with the skip flag and no cached chain data the build stops before writing anything
    ensures res.1 == Err(ChainDataNotFound) ==> res.0 == t
    ensures res.1 == Err(ChainDataNotFound) <==> SkipFetch(input.skipEnv) && !Exists(t, input.codec.cachePath)
  {
    var (t1, chain) := ChainDataSpec(t, SkipFetch(input.skipEnv), input.fetched, input.codec);
    if chain.Err? then (t1, Err(chain.error))
    else
      var t2 := EnsureDir(t1, input.roots.outputBaseDir);
      var g := BuildGlobals(input, chain.value);
      var (t3, m) := ManifestRun(t2, g, lib, input.manifest);
      if m.Err? then (t3, m)
      else
        var shows := EnrichedShows(input.shows, chain.value, input.appendChainData);
        var (t4, s) := FactoryRun(t3, input.roots, lib.render, ShowTemplate, ShowPages(g, shows, input.gitCommit));
        if s.Err? then (t4, Err(ReadFailed(s.error)))
        else
          var (t5, so) := FactoryRun(t4, input.roots, lib.render, SongTemplate, SongPages(g, input.songs, AsObject(shows)));
          (t5, if so.Err? then Err(ReadFailed(so.error)) else Ok(()))
  }

  /** A successful factory loop over `<dir><id>.html` pages leaves a file for
      every id. */
  lemma FactoryPagesWritten(t: Tree, roots: Roots, render: Renderer, template: string,
                            pages: seq<FactoryPage>, ids: seq<string>, dir: string)
    requires |pages| == |ids| && forall i :: 0 <= i < |pages| ==> pages[i].outputPath == dir + ids[i] + ".html"
    requires FactoryRun(t, roots, render, template, pages).1.Ok?
    ensures forall id :: id in ids ==> OutputFile(roots, dir + id + ".html") in FactoryRun(t, roots, render, template, pages).0.files
  {
    forall id | id in ids ensures OutputFile(roots, dir + id + ".html") in FactoryRun(t, roots, render, template, pages).0.files {
      var i :| 0 <= i < |ids| && ids[i] == id;
      var f := OutputFile(roots, dir + id + ".html");
      assert f == OutputFile(roots, pages[i].outputPath);
      FactoryRunFiles(t, roots, render, template, pages, f);
    }
  }

  /** A successful build leaves a page for every show and every song. */
  lemma BuildWritesEveryPage(t: Tree, input: BuildInputs, lib: Libraries)
    requires WellFormedInputs(input)
    requires BuildSpec(t, input, lib).1.Ok?
    ensures forall id :: id in Ids(input.shows) ==> OutputFile(input.roots, "shows/" + id + ".html") in BuildSpec(t, input, lib).0.files
    ensures forall id :: id in Ids(input.songs) ==> OutputFile(input.roots, "songs/" + id + ".html") in BuildSpec(t, input, lib).0.files
  {
    var (t1, chain) := ChainDataSpec(t, SkipFetch(input.skipEnv), input.fetched, input.codec);
    var t2 := EnsureDir(t1, input.roots.outputBaseDir);
    var g := BuildGlobals(input, chain.value);
    var t3 := ManifestRun(t2, g, lib, input.manifest).0;
    var shows := EnrichedShows(input.shows, chain.value, input.appendChainData);
    var showPages := ShowPages(g, shows, input.gitCommit);
    var t4 := FactoryRun(t3, input.roots, lib.render, ShowTemplate, showPages).0;
    var songPages := SongPages(g, input.songs, AsObject(shows));
    var t5 := FactoryRun(t4, input.roots, lib.render, SongTemplate, songPages).0;
    assert FactoryRun(t3, input.roots, lib.render, ShowTemplate, showPages).1.Ok?;
    assert FactoryRun(t4, input.roots, lib.render, SongTemplate, songPages).1.Ok?;
    assert BuildSpec(t, input, lib).0 == t5;
    FactoryPagesWritten(t3, input.roots, lib.render, ShowTemplate, showPages, Ids(shows), "shows/");
    FactoryPagesWritten(t4, input.roots, lib.render, SongTemplate, songPages, Ids(input.songs), "songs/");
    forall f | f in t4.files ensures f in t5.files {
      FactoryRunFiles(t4, input.roots, lib.render, SongTemplate, songPages, f);
    }
  }

  /** The whole primary build, chapters one, three and four (assets and set
      stones aside). */
  method Build(fs: FileStore, input: BuildInputs, lib: Libraries) returns (r: Result<(), BuildError>)
    requires WellFormedInputs(input)
    modifies fs
    ensures (fs.State(), r) == BuildSpec(old(fs.State()), input, lib)
  {
    var chain := LoadChainData(fs, input.skipEnv, input.fetched, input.codec);
    if chain.Err? {
      return Err(chain.error);
    }
    fs.MakeDirIfMissing(input.roots.outputBaseDir);
    var g := BuildGlobals(input, chain.value);
    r := BuildManifestPages(fs, g, lib, input.manifest);
    if r.Err? {
      return;
    }
    var shows := EnrichedShows(input.shows, chain.value, input.appendChainData);
    var showsDone := RenderFactoryPages(fs, input.roots, lib.render, ShowTemplate, ShowPages(g, shows, input.gitCommit));
    if showsDone.Err? {
      return Err(ReadFailed(showsDone.error));
    }
    var songsDone := RenderFactoryPages(fs, input.roots, lib.render, SongTemplate, SongPages(g, input.songs, AsObject(shows)));
    if songsDone.Err? {
      return Err(ReadFailed(songsDone.error));
    }
    return Ok(());
  }
}
