/** `read_generated_code` and `apply_code_fixes`: the refiner's view of the
    generated site, one whole file at a time. */
module RefinementTools {
  import opened Common
  import opened Text
  import opened Json
  import opened Paths
  import opened FileTree
  import opened Session

  /** The path both tools use for a caller's file name: the name as a path,
      put under `output` unless its printed form already begins with the
      characters "output". The test is on characters, not segments, and
      nothing checks where the path leads. */
  function ResolveCodePath(filename: string): (p: Path)
    ensures StartsWith(Render(Parse(filename)), "output") ==> p == Parse(filename)
    ensures !StartsWith(Render(Parse(filename)), "output") ==> p == ["output"] + Parse(filename)
    ensures ValidPath(p) && |p| > 0
  {
    var given := Parse(filename);
    assert Render([]) == ".";
    if StartsWith(Render(given), "output") then
      given
    else
      ValidConcat(["output"], given);
      ["output"] + given
  }

  datatype ReadReply = ReadOk(content: Value) | ReadFailed(error: ErrorText)

  /** `read_generated_code(filename, tool_context)`. */
  function ReadGeneratedCode(filename: string, ctx: Option<Context>, fs: Tree): (r: ReadReply)
    // a well-known name whose mirror key is in the state is answered from the state
    ensures ctx.Some? && ArtifactKey(filename).Some? && ArtifactKey(filename).value in ctx.value.state ==>
      r == ReadOk(ctx.value.state[ArtifactKey(filename).value])
    // otherwise the file under the resolved path is read
    ensures !(ctx.Some? && ArtifactKey(filename).Some? && ArtifactKey(filename).value in ctx.value.state) ==>
      && (ResolveCodePath(filename) in fs.files ==> r == ReadOk(Str(fs.files[ResolveCodePath(filename)])))
      && (!Exists(fs, ResolveCodePath(filename)) ==> r == ReadFailed(Message("File not found: " + filename)))
      && (Exists(fs, ResolveCodePath(filename)) && ResolveCodePath(filename) !in fs.files ==>
            r == ReadFailed(OsError(ResolveCodePath(filename))))
  {
    if ctx.Some? && ArtifactKey(filename).Some? && ArtifactKey(filename).value in ctx.value.state then
      ReadOk(ctx.value.state[ArtifactKey(filename).value])
    else
      var path := ResolveCodePath(filename);
      if !Exists(fs, path) then ReadFailed(Message("File not found: " + filename))
      else
        match ReadText(fs, path)
        case IoOk(text) => ReadOk(Str(text))
        case IoError(p) => ReadFailed(OsError(p))
  }

  datatype FixReply = Fixed(message: string) | FixFailed(error: ErrorText)

  datatype FixOutcome = FixOutcome(reply: FixReply, ctx: Option<Context>, fs: Tree)

  /** `count + 1` on the stored `refinement_count`; `None` where Python raises
      `TypeError`. A bool counts as 0 or 1, as in Python. */
  function Increment(count: Value): Option<Value> {
    match count
    case Num(n) => Some(Num(n + 1))
    case Bool(b) => Some(Num(if b then 2 else 1))
    case _ => None
  }

  /** `state.get("refinement_count", 0)`. */
  function StoredCount(state: State): Value {
    if "refinement_count" in state then state["refinement_count"] else Num(0)
  }

  /** `apply_code_fixes(file_path, fixed_code, explanation, tool_context)`:
      replaces one existing file in full, mirrors a well-known file into the
      state and counts the refinement. The explanation is only logged. */
  function ApplyCodeFixes(filePath: string, fixedCode: string, explanation: string,
                          ctx: Option<Context>, fs: Tree): (r: FixOutcome)
    // a missing target is reported and changes no file and no state
    ensures !Exists(fs, ResolveCodePath(filePath)) ==>
      r == FixOutcome(FixFailed(Message("File not found: " + Render(ResolveCodePath(filePath)))), ctx, fs)
    // success: the file holds exactly the fixed code, nothing else on disk moved
    ensures r.reply.Fixed? ==>
      && r.reply.message == "Fixed " + Name(ResolveCodePath(filePath))
      && r.fs.files == fs.files[ResolveCodePath(filePath) := fixedCode]
      && r.fs.dirs == fs.dirs
    // without a context there is no state to change
    ensures ctx.None? ==> r.ctx.None?
  {
    var path := ResolveCodePath(filePath);
    if !Exists(fs, path) then
      FixOutcome(FixFailed(Message("File not found: " + Render(path))), ctx, fs)
    else
      match WriteText(fs, path, fixedCode)
      case IoError(p) => FixOutcome(FixFailed(OsError(p)), ctx, fs)
      case IoOk(fs') =>
        match ctx
        case None => FixOutcome(Fixed("Fixed " + Name(path)), None, fs')
        case Some(c) =>
          var mirrored := MirrorArtifact(c.state, Name(path), fixedCode);
          match Increment(StoredCount(mirrored))
          // the file and the mirror are already written when `count + 1` raises
          case None => FixOutcome(FixFailed(PythonError), Some(WithState(c, mirrored)), fs')
          case Some(count) =>
            FixOutcome(Fixed("Fixed " + Name(path)), Some(WithState(c, mirrored["refinement_count" := count])), fs')
  }

  // ---------------------------------------------------------------- lemmas

  /** A bare file name is looked up under `output`. */
  lemma ResolvePlainName()
    ensures ResolveCodePath("index.html") == ["output", "index.html"]
  {
    ParseSegment("index.html");
    assert Render(["index.html"]) == "index.html";
    assert "index.html"[..6] != "output" by { assert "index.html"[0] != "output"[0]; }
  }

  /** The prefix rule works on characters, not segments: a directory that
      merely begins with "output" is taken as already resolved. */
  lemma ResolveOutputsSibling()
    ensures ResolveCodePath("outputs/x") == ["outputs", "x"]
  {
    var p := ["outputs", "x"];
    assert Join(p, "/") == "outputs/x" by { assert Join(p[1..], "/") == "x"; }
    ParseJoin(p);
    assert Render(p) == "outputs/x";
    assert "outputs/x"[..6] == "output";
  }

  /** Nothing resolves ".." or checks that the path stays under `output`. */
  lemma ResolveKeepsParentStep()
    ensures ResolveCodePath("output/../x") == ["output", "..", "x"]
  {
    var p := ["output", "..", "x"];
    assert Join(p[1..], "/") == "../x" by { assert Join(p[1..][1..], "/") == "x"; }
    assert Join(p, "/") == "output/../x";
    ParseJoin(p);
    assert Render(p) == "output/../x";
    assert "output/../x"[..6] == "output";
  }

  /** The stored counter is never one of the mirror keys. */
  lemma CounterIsNotMirrored(name: string)
    ensures ArtifactKey(name) != Some("refinement_count")
  {
  }

  /** On a well-formed tree the call succeeds exactly for an existing file
      whose stored counter, if any, is a number. */
  lemma ApplySucceedsIff(filePath: string, fixedCode: string, explanation: string,
                         ctx: Option<Context>, fs: Tree)
    requires WellFormed(fs)
    ensures ApplyCodeFixes(filePath, fixedCode, explanation, ctx, fs).reply.Fixed? <==>
      ResolveCodePath(filePath) in fs.files &&
      (ctx.None? || Increment(StoredCount(ctx.value.state)).Some?)
  {
    if ctx.Some? {
      CounterIsNotMirrored(Name(ResolveCodePath(filePath)));
    }
  }

  /** With a context, success counts one refinement (from 0 when absent) and
      mirrors a well-known file; every other key keeps its value. */
  lemma ApplyUpdatesState(filePath: string, fixedCode: string, explanation: string,
                          ctx: Option<Context>, fs: Tree)
    requires ctx.Some?
    requires ApplyCodeFixes(filePath, fixedCode, explanation, ctx, fs).reply.Fixed?
    ensures var r := ApplyCodeFixes(filePath, fixedCode, explanation, ctx, fs);
      var name := Name(ResolveCodePath(filePath));
      var s := ctx.value.state;
      var s' := r.ctx.value.state;
      && r.ctx.value.sessionId == ctx.value.sessionId
      && ("refinement_count" !in s ==> s'["refinement_count"] == Num(1))
      && (StoredCount(s).Num? ==> s'["refinement_count"] == Num(StoredCount(s).n + 1))
      && (ArtifactKey(name).Some? ==> s'[ArtifactKey(name).value] == Str(fixedCode))
      && s'.Keys == s.Keys + {"refinement_count"} +
           (if ArtifactKey(name).Some? then {ArtifactKey(name).value} else {})
      && (forall k :: (k in s && k != "refinement_count" && Some(k) != ArtifactKey(name)) ==> s'[k] == s[k])
  {
    CounterIsNotMirrored(Name(ResolveCodePath(filePath)));
  }

  /** Applying the same fix twice leaves the same files as applying it once. */
  lemma ApplyTwiceSameFiles(filePath: string, fixedCode: string, explanation: string,
                            ctx: Option<Context>, fs: Tree)
    requires ApplyCodeFixes(filePath, fixedCode, explanation, ctx, fs).reply.Fixed?
    ensures var once := ApplyCodeFixes(filePath, fixedCode, explanation, ctx, fs);
      var twice := ApplyCodeFixes(filePath, fixedCode, explanation, once.ctx, once.fs);
      twice.reply.Fixed? && twice.fs == once.fs
  {
    var once := ApplyCodeFixes(filePath, fixedCode, explanation, ctx, fs);
    var path := ResolveCodePath(filePath);
    assert once.fs.files[path := fixedCode] == once.fs.files;
  }
}
