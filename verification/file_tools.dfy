/** `save_artifact` and `create_project_structure`: writing generated files
    into the session's output directory. */
module FileTools {
  import opened Common
  import opened Text
  import opened Json
  import opened Paths
  import opened FileTree
  import opened Session

  datatype SaveReply = Saved(filename: string) | SaveFailed(error: ErrorText)

  datatype SaveOutcome = SaveOutcome(reply: SaveReply, ctx: Option<Context>, fs: Tree)

  /** The file name with a legacy `output/...` prefix removed: when the name
      begins with the characters "output", everything up to the first
      `generated_website` segment, or failing that the first `output`
      segment, is dropped. The result is the string Python rebuilds. */
  function CleanFilename(filename: string): (clean: string)
    ensures !StartsWith(filename, "output") ==> clean == filename
    ensures StartsWith(filename, "output") && "generated_website" in Parse(filename) ==>
      var i := IndexOf(Parse(filename), "generated_website").value;
      clean == Render(Parse(filename)[i + 1..]) && "generated_website" !in Parse(filename)[..i]
    ensures StartsWith(filename, "output") && "generated_website" !in Parse(filename) && "output" in Parse(filename) ==>
      var i := IndexOf(Parse(filename), "output").value;
      clean == Render(Parse(filename)[i + 1..]) && "output" !in Parse(filename)[..i]
    ensures StartsWith(filename, "output") && "generated_website" !in Parse(filename) && "output" !in Parse(filename) ==>
      clean == filename
  {
    if StartsWith(filename, "output") then
      var parts := Parse(filename);
      var site := IndexOf(parts, "generated_website");
      if site.Some? then Render(parts[site.value + 1..])
      else
        var out := IndexOf(parts, "output");
        if out.Some? then Render(parts[out.value + 1..])
        else filename
    else filename
  }

  /** `output_dir / clean_filename`. */
  function ArtifactPath(filename: string, ctx: Option<Context>): (p: Path)
    ensures ValidPath(p)
    ensures |p| >= |SessionOutputDir(ctx)| && p[..|SessionOutputDir(ctx)|] == SessionOutputDir(ctx)
  {
    ValidConcat(SessionOutputDir(ctx), Parse(CleanFilename(filename)));
    SessionOutputDir(ctx) + Parse(CleanFilename(filename))
  }

  /** `save_artifact(filename, content, tool_context)`. */
  function SaveArtifact(filename: string, content: string, ctx: Option<Context>, fs: Tree): (r: SaveOutcome)
    // without a context nothing is written
    ensures ctx.None? ==> r == SaveOutcome(SaveFailed(Message("ToolContext is required")), ctx, fs)
    // on success the file holds the content and the reply names it
    ensures r.reply.Saved? ==>
      && r.reply.filename == Render(ArtifactPath(filename, ctx))
      && ArtifactPath(filename, ctx) in r.fs.files
      && r.fs.files == fs.files[ArtifactPath(filename, ctx) := content]
      && fs.dirs <= r.fs.dirs
      && r.ctx == Some(WithState(ctx.value, MirrorArtifact(ctx.value.state, Name(ArtifactPath(filename, ctx)), content)))
    // on failure no file content and no state changed
    ensures r.reply.SaveFailed? ==> r.fs.files == fs.files && r.ctx == ctx
  {
    match ctx
    case None => SaveOutcome(SaveFailed(Message("ToolContext is required")), ctx, fs)
    case Some(c) =>
      var path := ArtifactPath(filename, ctx);
      match MakeDirs(fs, Parent(path))
      case IoError(p) => SaveOutcome(SaveFailed(OsError(p)), ctx, fs)
      case IoOk(fs1) =>
        match WriteText(fs1, path, content)
        // the directories made on the way stay made
        case IoError(p) => SaveOutcome(SaveFailed(OsError(p)), ctx, fs1)
        case IoOk(fs2) =>
          SaveOutcome(Saved(Render(path)), Some(WithState(c, MirrorArtifact(c.state, Name(path), content))), fs2)
  }

  datatype ProjectReply = Created(projectName: string, path: string) | CreateFailed(error: ErrorText)

  datatype ProjectOutcome = ProjectOutcome(reply: ProjectReply, fs: Tree)

  /** `create_project_structure(project_name, tool_context)`: the output
      directory with `assets` and `components` inside it. The project name is
      only echoed. */
  function CreateProjectStructure(projectName: string, ctx: Option<Context>, fs: Tree): (r: ProjectOutcome)
    ensures r.reply.Created? ==>
      && r.reply.projectName == projectName
      && r.reply.path == Render(SessionOutputDir(ctx))
      && IsDir(r.fs, SessionOutputDir(ctx))
      && IsDir(r.fs, SessionOutputDir(ctx) + ["assets"])
      && IsDir(r.fs, SessionOutputDir(ctx) + ["components"])
    // no file is ever touched
    ensures r.fs.files == fs.files
    ensures fs.dirs <= r.fs.dirs
  {
    var dir := SessionOutputDir(ctx);
    match MakeDirs(fs, dir)
    case IoError(p) => ProjectOutcome(CreateFailed(OsError(p)), fs)
    case IoOk(fs1) =>
      MakeDirsSpec(fs, dir);
      match MakeDir(fs1, dir + ["assets"])
      case IoError(p) => ProjectOutcome(CreateFailed(OsError(p)), fs1)
      case IoOk(fs2) =>
        match MakeDir(fs2, dir + ["components"])
        case IoError(p) => ProjectOutcome(CreateFailed(OsError(p)), fs2)
        case IoOk(fs3) => ProjectOutcome(Created(projectName, Render(dir)), fs3)
  }

  // ---------------------------------------------------------------- lemmas

  /** The cleaned name as segments: the tail after the marker segment, or
      the whole name. */
  lemma ArtifactPathSegments(filename: string, ctx: Option<Context>)
    ensures var parts := Parse(filename);
      && (StartsWith(filename, "output") && "generated_website" in parts ==>
            ArtifactPath(filename, ctx) == SessionOutputDir(ctx) + parts[IndexOf(parts, "generated_website").value + 1..])
      && (StartsWith(filename, "output") && "generated_website" !in parts && "output" in parts ==>
            ArtifactPath(filename, ctx) == SessionOutputDir(ctx) + parts[IndexOf(parts, "output").value + 1..])
      && (!StartsWith(filename, "output") || ("generated_website" !in parts && "output" !in parts) ==>
            ArtifactPath(filename, ctx) == SessionOutputDir(ctx) + parts)
  {
    var parts := Parse(filename);
    if StartsWith(filename, "output") && "generated_website" in parts {
      MarkerTailKept(filename, ctx, "generated_website");
    } else if StartsWith(filename, "output") && "output" in parts {
      MarkerTailKept(filename, ctx, "output");
    } else {
      assert CleanFilename(filename) == filename;
    }
  }

  /** When the cleaned name is the tail after a marker segment, that tail is
      what lands under the session directory. */
  lemma MarkerTailKept(filename: string, ctx: Option<Context>, marker: string)
    requires marker in Parse(filename)
    requires CleanFilename(filename) == Render(Parse(filename)[IndexOf(Parse(filename), marker).value + 1..])
    ensures ArtifactPath(filename, ctx) ==
      SessionOutputDir(ctx) + Parse(filename)[IndexOf(Parse(filename), marker).value + 1..]
  {
    var parts := Parse(filename);
    CleanTailParses(parts, IndexOf(parts, marker).value + 1, CleanFilename(filename));
  }

  /** A name rebuilt from a tail of valid segments parses back to that tail. */
  lemma CleanTailParses(parts: Path, i: nat, clean: string)
    requires ValidPath(parts) && i <= |parts|
    requires clean == Render(parts[i..])
    ensures Parse(clean) == parts[i..]
  {
    ValidTail(parts, i);
    ParseRender(parts[i..]);
  }

  lemma ValidTail(p: Path, i: nat)
    requires ValidPath(p) && i <= |p|
    ensures ValidPath(p[i..])
  {
    assert forall k :: 0 <= k < |p[i..]| ==> p[i..][k] == p[k + i];
  }

  /** The legacy prefix `output/generated_website/` is dropped: such a name
      lands where the bare name does. */
  lemma LegacyPrefixDropped(q: Path, ctx: Option<Context>)
    requires ValidPath(q) && |q| > 0
    ensures ArtifactPath(Render(["output", "generated_website"] + q), ctx) == SessionOutputDir(ctx) + q
  {
    var full := ["output", "generated_website"] + q;
    ValidConcat(["output", "generated_website"], q);
    ParseRender(full);
    var s := Render(full);
    assert s == "output" + "/" + Join(full[1..], "/");
    assert s[..6] == "output";
    assert IndexOf(full, "generated_website") == Some(1);
    assert full[2..] == q;
    ArtifactPathSegments(s, ctx);
  }

  /** A plain relative name that does not begin with "output" is kept as is. */
  lemma PlainNameKept(q: Path, ctx: Option<Context>)
    requires ValidPath(q) && !StartsWith(Render(q), "output")
    ensures ArtifactPath(Render(q), ctx) == SessionOutputDir(ctx) + q
  {
    ParseRender(q);
  }

  /** Nothing resolves "..": the parent step stays in the path as a segment of its own,
      so the written file lands beside `generated_website`, not inside it. */
  lemma ArtifactKeepsParentStep()
    ensures ArtifactPath("../x", None) == ["output", "generated_website", "..", "x"]
  {
    var q := ["..", "x"];
    assert Join(q, "/") == "../x" by { assert Join(q[1..], "/") == "x"; }
    assert Render(q) == "../x";
    assert "../x"[0] != "output"[0];
    PlainNameKept(q, None);
  }

  /** The reply names a path that parses back to where the file was written. */
  lemma SavedNameParsesBack(filename: string, content: string, ctx: Option<Context>, fs: Tree)
    requires SaveArtifact(filename, content, ctx, fs).reply.Saved?
    ensures Parse(SaveArtifact(filename, content, ctx, fs).reply.filename) == ArtifactPath(filename, ctx)
  {
    ParseRender(ArtifactPath(filename, ctx));
  }

  /** On a well-formed tree, with a context, saving fails exactly when a
      prefix of the parent directory is a file or the target is a directory. */
  lemma SaveSucceedsIff(filename: string, content: string, ctx: Option<Context>, fs: Tree)
    requires WellFormed(fs) && ctx.Some?
    ensures var path := ArtifactPath(filename, ctx);
      SaveArtifact(filename, content, ctx, fs).reply.Saved? <==>
        (forall i :: 1 <= i < |path| ==> path[..i] !in fs.files) && !IsDir(fs, path)
  {
    var path := ArtifactPath(filename, ctx);
    assert |path| > 0;
    MakeParentThenWrite(fs, path, content);
  }

  /** The tree a successful save leaves: the parent's ancestors made, then
      the one file written. */
  lemma SavedTree(filename: string, content: string, ctx: Option<Context>, fs: Tree)
    requires SaveArtifact(filename, content, ctx, fs).reply.Saved?
    ensures var path := ArtifactPath(filename, ctx);
      && (forall i :: 1 <= i <= |Parent(path)| ==> Parent(path)[..i] !in fs.files)
      && !IsDir(fs, path)
      && SaveArtifact(filename, content, ctx, fs).fs
           == Tree(fs.files[path := content], fs.dirs + Ancestors(Parent(path)))
  {
  }

  /** A save that finds the file and its mirror already in place changes
      nothing. */
  lemma SaveInPlace(filename: string, content: string, ctx: Option<Context>, fs: Tree)
    requires ctx.Some?
    requires var path := ArtifactPath(filename, ctx);
      && Ancestors(Parent(path)) <= fs.dirs
      && path !in fs.dirs
      && path in fs.files && fs.files[path] == content
      && (forall i :: 1 <= i <= |Parent(path)| ==> Parent(path)[..i] !in fs.files)
      && MirrorArtifact(ctx.value.state, Name(path), content) == ctx.value.state
    ensures SaveArtifact(filename, content, ctx, fs)
         == SaveOutcome(Saved(Render(ArtifactPath(filename, ctx))), ctx, fs)
  {
    var path := ArtifactPath(filename, ctx);
    var par := Parent(path);
    assert fs.(dirs := fs.dirs + Ancestors(par)) == fs;
    assert MakeDirs(fs, par) == IoOk(fs);
    assert IsDir(fs, par) by {
      if par != [] { assert par[..|par|] == par; }
    }
    assert fs.files[path := content] == fs.files;
    assert WriteText(fs, path, content) == IoOk(fs);
  }

  /** Saving the same content twice leaves the same files, directories and
      state as saving it once. */
  lemma SaveArtifactIdempotent(filename: string, content: string, ctx: Option<Context>, fs: Tree)
    requires SaveArtifact(filename, content, ctx, fs).reply.Saved?
    ensures var once := SaveArtifact(filename, content, ctx, fs);
      var twice := SaveArtifact(filename, content, once.ctx, once.fs);
      twice == once
  {
    var once := SaveArtifact(filename, content, ctx, fs);
    var path := ArtifactPath(filename, ctx);
    var par := Parent(path);
    SavedTree(filename, content, ctx, fs);
    assert SessionOutputDir(once.ctx) == SessionOutputDir(ctx);
    assert ArtifactPath(filename, once.ctx) == path;
    assert forall x :: x in Ancestors(par) ==> |x| < |path|;
    var m := MirrorArtifact(ctx.value.state, Name(path), content);
    assert MirrorArtifact(m, Name(path), content) == m;
    SaveInPlace(filename, content, once.ctx, once.fs);
  }

  /** Creating the structure twice is the same as creating it once. */
  lemma CreateProjectIdempotent(projectName: string, ctx: Option<Context>, fs: Tree)
    requires CreateProjectStructure(projectName, ctx, fs).reply.Created?
    ensures var once := CreateProjectStructure(projectName, ctx, fs);
      CreateProjectStructure(projectName, ctx, once.fs) == once
  {
    var dir := SessionOutputDir(ctx);
    var once := CreateProjectStructure(projectName, ctx, fs);
    MakeDirsSpec(fs, dir);
    assert once.fs.dirs == fs.dirs + Ancestors(dir) + {dir + ["assets"], dir + ["components"]};
    assert Ancestors(dir) <= once.fs.dirs;
  }

  /** On a well-formed tree the structure is created unless a prefix of the
      output directory, or `assets` or `components` under it, is a file. */
  lemma CreateProjectSucceedsIff(projectName: string, ctx: Option<Context>, fs: Tree)
    requires WellFormed(fs)
    ensures var dir := SessionOutputDir(ctx);
      CreateProjectStructure(projectName, ctx, fs).reply.Created? <==>
        && (forall i :: 1 <= i <= |dir| ==> dir[..i] !in fs.files)
        && dir + ["assets"] !in fs.files
        && dir + ["components"] !in fs.files
  {
    var dir := SessionOutputDir(ctx);
    if MakeDirs(fs, dir).IoOk? {
      MakeDirsSpec(fs, dir);
      assert Parent(dir + ["assets"]) == dir;
      assert Parent(dir + ["components"]) == dir;
    }
  }
}
