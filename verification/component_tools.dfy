/** `save_component`: one reusable UI component written under the output
    directory's `components` folder and recorded in the session state. */
module ComponentTools {
  import opened Common
  import opened Text
  import opened Json
  import opened Paths
  import opened FileTree
  import opened Session

  datatype ComponentReply = ComponentSaved(path: string) | ComponentFailed(error: ErrorText)

  datatype ComponentOutcome = ComponentOutcome(reply: ComponentReply, ctx: Option<Context>, fs: Tree)

  /** The file extension for a component type, compared case-insensitively;
      any other type is saved as HTML. */
  function Extension(componentType: string): (ext: string)
    ensures ext == "jsx" <==> Lower(componentType) == "react"
    ensures ext == "vue" <==> Lower(componentType) == "vue"
    ensures ext == "html" <==> Lower(componentType) != "react" && Lower(componentType) != "vue"
  {
    if Lower(componentType) == "react" then "jsx"
    else if Lower(componentType) == "vue" then "vue"
    else "html"
  }

  /** `output_dir / "components"`. */
  function ComponentsDir(ctx: Option<Context>): Path {
    SessionOutputDir(ctx) + ["components"]
  }

  /** `components_dir / f"{name}.{extension}"`: the name is joined as a path,
      so a name with '/' lands in a sub-folder. */
  function ComponentPath(name: string, componentType: string, ctx: Option<Context>): (p: Path)
    ensures ValidPath(p)
    ensures |p| > |ComponentsDir(ctx)| && p[..|ComponentsDir(ctx)|] == ComponentsDir(ctx)
  {
    assert name + "." + Extension(componentType) == (name) + ("." + Extension(componentType));
    ParseWithSuffix(name, "." + Extension(componentType));
    ValidConcat(SessionOutputDir(ctx), ["components"]);
    ValidConcat(ComponentsDir(ctx), Parse(name + "." + Extension(componentType)));
    ComponentsDir(ctx) + Parse(name + "." + Extension(componentType))
  }

  /** Nothing resolves "..": a name starting with a parent step puts the component
      beside the `components` folder, not inside it. */
  lemma ComponentKeepsParentStep()
    ensures ComponentPath("../x", "html", None) ==
      ["output", "generated_website", "components", "..", "x.html"]
  {
    ParentStepParses();
    HtmlFileName();
    ComponentPathJoins("../x", "html", None);
    assert ComponentsDir(None) == ["output", "generated_website", "components"];
  }

  lemma ComponentPathJoins(name: string, componentType: string, ctx: Option<Context>)
    ensures ComponentPath(name, componentType, ctx) ==
      ComponentsDir(ctx) + Parse(name + "." + Extension(componentType))
  {
  }

  lemma ParentStepParses()
    ensures Parse("../x.html") == ["..", "x.html"]
  {
    var q := ["..", "x.html"];
    assert Join(q, "/") == "../x.html" by { assert Join(q[1..], "/") == "x.html"; }
    ParseRender(q);
  }

  lemma HtmlFileName()
    ensures "../x" + "." + Extension("html") == "../x.html"
  {
    HtmlExtension();
  }

  lemma HtmlExtension()
    ensures Extension("html") == "html"
  {
    assert Lower("html") != "react" by { assert Lower("html")[0] == 'h'; }
    assert Lower("html") != "vue" by { assert Lower("html")[0] == 'h'; }
  }

  /** The record appended to `generated_components`; the type is kept as given. */
  function Entry(name: string, path: string, componentType: string): Value {
    Obj([Field("name", Str(name)), Field("path", Str(path)), Field("type", Str(componentType))])
  }

  /** `components.append(...)` on the stored registry, which defaults to an
      empty list; `None` where the stored value has no `append`. */
  function AppendEntry(state: State, entry: Value): Option<State> {
    var components := if "generated_components" in state then state["generated_components"] else Arr([]);
    match components
    case Arr(items) => Some(state["generated_components" := Arr(items + [entry])])
    case _ => None
  }

  /** `save_component(name, code, component_type, tool_context)`. */
  function SaveComponent(name: string, code: string, componentType: string,
                         ctx: Option<Context>, fs: Tree): (r: ComponentOutcome)
    // success: the component file holds the code and the reply names it
    ensures r.reply.ComponentSaved? ==>
      && r.reply.path == Render(ComponentPath(name, componentType, ctx))
      && r.fs.files == fs.files[ComponentPath(name, componentType, ctx) := code]
    // the components folder is made before anything else can fail
    ensures MakeDirs(fs, ComponentsDir(ctx)).IoOk? ==> IsDir(r.fs, ComponentsDir(ctx))
    // a failure leaves the state alone
    ensures r.reply.ComponentFailed? ==> r.ctx == ctx
    ensures ctx.None? ==> r.ctx.None?
  {
    var dir := ComponentsDir(ctx);
    match MakeDirs(fs, dir)
    case IoError(p) => ComponentOutcome(ComponentFailed(OsError(p)), ctx, fs)
    case IoOk(fs1) =>
      MakeDirsSpec(fs, dir);
      var path := ComponentPath(name, componentType, ctx);
      match WriteText(fs1, path, code)
      case IoError(p) => ComponentOutcome(ComponentFailed(OsError(p)), ctx, fs1)
      case IoOk(fs2) =>
        match ctx
        case None => ComponentOutcome(ComponentSaved(Render(path)), None, fs2)
        case Some(c) =>
          match AppendEntry(c.state, Entry(name, Render(path), componentType))
          // the file is already written when `append` raises
          case None => ComponentOutcome(ComponentFailed(PythonError), ctx, fs2)
          case Some(s) => ComponentOutcome(ComponentSaved(Render(path)), Some(WithState(c, s)), fs2)
  }

  // ---------------------------------------------------------------- lemmas

  /** A name without '/' is saved directly in the components folder. */
  lemma PlainComponentPath(name: string, componentType: string, ctx: Option<Context>)
    requires '/' !in name
    ensures ComponentPath(name, componentType, ctx)
         == SessionOutputDir(ctx) + ["components", name + "." + Extension(componentType)]
    ensures Parent(ComponentPath(name, componentType, ctx)) == ComponentsDir(ctx)
  {
    var f := name + "." + Extension(componentType);
    assert forall k :: 0 <= k < |f| ==> f[k] != '/' by {
      assert forall k :: 0 <= k < |name| ==> f[k] == name[k];
      assert forall k :: |name| <= k < |f| ==> f[k] in "." + Extension(componentType);
    }
    assert f != "" && f != "." by { assert |f| >= 4; }
    ParseSegment(f);
  }

  /** With a context, success appends exactly one record, naming the path the
      reply names, and touches no other key. */
  lemma SaveRecordsComponent(name: string, code: string, componentType: string,
                             ctx: Option<Context>, fs: Tree)
    requires ctx.Some?
    requires SaveComponent(name, code, componentType, ctx, fs).reply.ComponentSaved?
    ensures var r := SaveComponent(name, code, componentType, ctx, fs);
      var s := ctx.value.state;
      var s' := r.ctx.value.state;
      var before := if "generated_components" in s then s["generated_components"].items else [];
      && ("generated_components" in s ==> s["generated_components"].Arr?)
      && s'["generated_components"] == Arr(before + [Entry(name, r.reply.path, componentType)])
      && s'.Keys == s.Keys + {"generated_components"}
      && (forall k :: k in s && k != "generated_components" ==> s'[k] == s[k])
  {
  }

  /** With a context, the save fails after writing the file exactly when the
      stored registry is not a list. */
  lemma RegistryMustBeList(name: string, code: string, componentType: string,
                           ctx: Option<Context>, fs: Tree)
    requires ctx.Some?
    requires MakeDirs(fs, ComponentsDir(ctx)).IoOk?
    requires WriteText(MakeDirs(fs, ComponentsDir(ctx)).value, ComponentPath(name, componentType, ctx), code).IoOk?
    ensures var r := SaveComponent(name, code, componentType, ctx, fs);
      && r.fs.files == fs.files[ComponentPath(name, componentType, ctx) := code]
      && (r.reply.ComponentSaved? <==>
           ("generated_components" !in ctx.value.state || ctx.value.state["generated_components"].Arr?))
  {
  }

  /** The recorded path parses back to where the component was written. */
  lemma RecordedPathParsesBack(name: string, code: string, componentType: string,
                               ctx: Option<Context>, fs: Tree)
    requires SaveComponent(name, code, componentType, ctx, fs).reply.ComponentSaved?
    ensures Parse(SaveComponent(name, code, componentType, ctx, fs).reply.path)
         == ComponentPath(name, componentType, ctx)
  {
    ParseRender(ComponentPath(name, componentType, ctx));
  }

  /** The tree a successful save leaves: the folder's ancestors made, then
      the one file written. */
  lemma SavedComponentTree(name: string, code: string, componentType: string,
                           ctx: Option<Context>, fs: Tree)
    requires SaveComponent(name, code, componentType, ctx, fs).reply.ComponentSaved?
    ensures var dir := ComponentsDir(ctx);
      var path := ComponentPath(name, componentType, ctx);
      && (forall i :: 1 <= i <= |dir| ==> dir[..i] !in fs.files)
      && !IsDir(fs, path)
      && SaveComponent(name, code, componentType, ctx, fs).fs
           == Tree(fs.files[path := code], fs.dirs + Ancestors(dir))
  {
  }

  /** Writing a component over itself, in a folder that exists, changes no file. */
  lemma RewriteComponent(name: string, code: string, componentType: string,
                         ctx: Option<Context>, fs: Tree)
    requires var dir := ComponentsDir(ctx);
      var path := ComponentPath(name, componentType, ctx);
      && Ancestors(dir) <= fs.dirs
      && (forall i :: 1 <= i <= |dir| ==> dir[..i] !in fs.files)
      && path !in fs.dirs && path in fs.files && fs.files[path] == code
      && Parent(path) in fs.dirs
    ensures MakeDirs(fs, ComponentsDir(ctx)) == IoOk(fs)
    ensures WriteText(fs, ComponentPath(name, componentType, ctx), code) == IoOk(fs)
  {
    var path := ComponentPath(name, componentType, ctx);
    assert fs.(dirs := fs.dirs + Ancestors(ComponentsDir(ctx))) == fs;
    assert fs.files[path := code] == fs.files;
  }

  /** The registry is a log, not a set: saving the same component twice
      records it twice. */
  lemma SaveTwiceRecordsTwice(name: string, code: string, componentType: string,
                              ctx: Option<Context>, fs: Tree)
    requires ctx.Some? && "generated_components" !in ctx.value.state
    requires SaveComponent(name, code, componentType, ctx, fs).reply.ComponentSaved?
    ensures var once := SaveComponent(name, code, componentType, ctx, fs);
      var twice := SaveComponent(name, code, componentType, once.ctx, once.fs);
      var e := Entry(name, Render(ComponentPath(name, componentType, ctx)), componentType);
      && twice.reply == once.reply
      && twice.fs == once.fs
      && twice.ctx.value.state["generated_components"] == Arr([e, e])
  {
    var once := SaveComponent(name, code, componentType, ctx, fs);
    var path := ComponentPath(name, componentType, ctx);
    var dir := ComponentsDir(ctx);
    var e := Entry(name, Render(path), componentType);
    SavedComponentTree(name, code, componentType, ctx, fs);
    SaveRecordsComponent(name, code, componentType, ctx, fs);
    assert once.ctx.value.state["generated_components"] == Arr([e]);
    assert SessionOutputDir(once.ctx) == SessionOutputDir(ctx);
    assert ComponentPath(name, componentType, once.ctx) == path;
    assert forall x :: x in Ancestors(dir) ==> |x| < |path|;
    assert Parent(path) in once.fs.dirs by {
      // the written file sits in the saved-to folder, which the write needed
      assert IsDir(MakeDirs(fs, dir).value, Parent(path));
    }
    RewriteComponent(name, code, componentType, once.ctx, once.fs);
    AppendSecond(once.ctx.value.state, e);
  }

  lemma AppendSecond(s: State, e: Value)
    requires "generated_components" in s && s["generated_components"] == Arr([e])
    ensures AppendEntry(s, e) == Some(s["generated_components" := Arr([e, e])])
  {
    assert [e] + [e] == [e, e];
  }
}
