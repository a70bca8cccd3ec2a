/** The shared render primitive `renderPage`: render the content template,
    embed the result in a layout under `main_block`, write the page. */
module Rendering {

  import opened Wrappers
  import opened Values
  import opened Paths
  import opened Files

  /** Handlebars, seen from the build: `Handlebars.compile(source)(context)`. */
  type Renderer = (string, Context) -> string

  /** The three directory constants the build is configured with. */
  datatype Roots = Roots(outputBaseDir: string, templateDir: string, pageBaseDir: string)

  const DefaultLayout: string := "base.hbs"
  const MainBlock: string := "main_block"

  /** The `layout = "base.hbs"` default parameter. */
  function LayoutOrDefault(layout: Option<string>): string {
    if layout.Some? then layout.value else DefaultLayout
  }

  /** `path.join(templateDir, 'layouts', name)`. */
  function LayoutPath(roots: Roots, name: string): string {
    Join(Join(roots.templateDir, "layouts"), name)
  }

  /** `{...context, main_block: body}`: every context key survives except that
      `main_block` is always the body, whatever the context held under it. */
  function LayoutContext(ctx: Context, body: string): (c: Context)
    ensures c.Keys == ctx.Keys + {MainBlock}
    ensures c[MainBlock] == Str(body)
    ensures forall k :: k in ctx && k != MainBlock ==> c[k] == ctx[k]
  {
    ctx[MainBlock := Str(body)]
  }

  /** The two-stage render: the body is the content template applied to the
      context, the page is the layout applied to the context plus the body. */
  function ComposePage(render: Renderer, templateSource: string, layoutSource: string, ctx: Context): string {
    render(layoutSource, LayoutContext(ctx, render(templateSource, ctx)))
  }

  /** Where `renderPage` writes: `path.join(outputBaseDir, output_path)`. */
  function OutputFile(roots: Roots, outputPath: string): string {
    Join(roots.outputBaseDir, outputPath)
  }

  /** The file system after `renderPage` and what it returns (or throws). */
  function RenderPageSpec(t: Tree, roots: Roots, render: Renderer, templatePath: string,
                          ctx: Context, outputPath: string, layout: Option<string>)
    : (res: (Tree, Result<string, IoError>))
    // the output directory exists afterwards, created (recursively) only if it was missing
    ensures res.0.dirs == EnsureDir(t, Dirname(OutputFile(roots, outputPath))).dirs
    ensures Exists(res.0, Dirname(OutputFile(roots, outputPath)))
    // it succeeds exactly when the content template and the layout can be read
    ensures res.1.Ok? <==>
              Join(roots.templateDir, templatePath) in t.files
              && LayoutPath(roots, LayoutOrDefault(layout)) in t.files
    // the page returned is the page written, the two-stage render of the sources;
    // only the output file changes
    ensures res.1.Ok? ==>
              && res.1.value == ComposePage(render, t.files[Join(roots.templateDir, templatePath)],
                                            t.files[LayoutPath(roots, LayoutOrDefault(layout))], ctx)
              && res.0.files == t.files[OutputFile(roots, outputPath) := res.1.value]
    // on failure no file changes and the error names the first unreadable source
    ensures res.1.Err? ==>
              && res.0.files == t.files
              && res.1.error.path == (if Join(roots.templateDir, templatePath) !in t.files
                                      then Join(roots.templateDir, templatePath)
                                      else LayoutPath(roots, LayoutOrDefault(layout)))
  {
    var out := OutputFile(roots, outputPath);
    var t1 := EnsureDir(t, Dirname(out));
    match Read(t1, Join(roots.templateDir, templatePath))
    case Err(e) => (t1, Err(e))
    case Ok(source) =>
      match Read(t1, LayoutPath(roots, LayoutOrDefault(layout)))
      case Err(e) => (t1, Err(e))
      case Ok(layoutSource) =>
        var page := ComposePage(render, source, layoutSource, ctx);
        (Write(t1, out, page), Ok(page))
  }

  /** Leaving the layout out is the same as asking for `base.hbs`. */
  lemma DefaultLayoutIsBase(t: Tree, roots: Roots, render: Renderer, templatePath: string,
                            ctx: Context, outputPath: string)
    ensures RenderPageSpec(t, roots, render, templatePath, ctx, outputPath, None)
            == RenderPageSpec(t, roots, render, templatePath, ctx, outputPath, Some(DefaultLayout))
  {
  }

  /** `renderPage({template_path, context, output_path, layout})`. */
  method RenderPage(fs: FileStore, roots: Roots, render: Renderer, templatePath: string,
                    ctx: Context, outputPath: string, layout: Option<string>)
    returns (r: Result<string, IoError>)
    modifies fs
    ensures (fs.State(), r) == RenderPageSpec(old(fs.State()), roots, render, templatePath, ctx, outputPath, layout)
  {
    var out := OutputFile(roots, outputPath);
    fs.MakeDirIfMissing(Dirname(out));
    var source := fs.ReadFile(Join(roots.templateDir, templatePath));
    if source.Err? {
      return Err(source.error);
    }
    var body := render(source.value, ctx);
    var layoutSource := fs.ReadFile(LayoutPath(roots, LayoutOrDefault(layout)));
    if layoutSource.Err? {
      return Err(layoutSource.error);
    }
    var page := render(layoutSource.value, LayoutContext(ctx, body));
    fs.WriteFile(out, page);
    return Ok(page);
  }
}
