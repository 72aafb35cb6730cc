/** What one tool leaves behind for the next: the generators and the file
    tools write, `read_generated_code` reads. */
module ToolSequences {
  import opened Common
  import opened Text
  import opened Json
  import opened Paths
  import opened FileTree
  import opened Session
  import opened RefinementTools
  import opened FileTools
  import opened CodeTools

  /** A plain segment that does not begin with "output" is looked up under
      `output`, and saved directly under the session directory. */
  lemma PlainSegmentPaths(name: string, ctx: Option<Context>)
    requires ValidSegment(name) && !StartsWith(name, "output")
    ensures ResolveCodePath(name) == ["output", name]
    ensures ArtifactPath(name, ctx) == SessionOutputDir(ctx) + [name]
  {
    ParseSegment(name);
    assert Render([name]) == name;
  }

  /** The three well-known file names are such plain segments. */
  lemma WellKnownIsPlain(name: string)
    requires ArtifactKey(name).Some?
    ensures ValidSegment(name) && !StartsWith(name, "output")
  {
    if name == "index.html" {
      assert name[0] != "output"[0];
    } else if name == "styles.css" {
      assert name[0] != "output"[0];
    } else {
      assert name[0] != "output"[0];
    }
  }

  /** After a successful fix, reading the same name returns the fixed code,
      from the state for a well-known name and from the file otherwise. */
  lemma FixThenRead(filePath: string, fixedCode: string, explanation: string,
                    ctx: Option<Context>, fs: Tree)
    requires ApplyCodeFixes(filePath, fixedCode, explanation, ctx, fs).reply.Fixed?
    ensures var r := ApplyCodeFixes(filePath, fixedCode, explanation, ctx, fs);
      ReadGeneratedCode(filePath, r.ctx, r.fs) == ReadOk(Str(fixedCode))
  {
    var path := ResolveCodePath(filePath);
    var r := ApplyCodeFixes(filePath, fixedCode, explanation, ctx, fs);
    if ctx.Some? && ArtifactKey(filePath).Some? {
      WellKnownIsPlain(filePath);
      PlainSegmentPaths(filePath, ctx);
      assert Name(path) == filePath;
      ApplyUpdatesState(filePath, fixedCode, explanation, ctx, fs);
      assert r.ctx.value.state[ArtifactKey(filePath).value] == Str(fixedCode);
    } else {
      assert r.ctx.None? || ArtifactKey(filePath).None?;
      assert r.fs.files[path] == fixedCode;
    }
  }

  /** With a context, a saved well-known file reads back as saved. */
  lemma SaveThenRead(filename: string, content: string, ctx: Context, fs: Tree)
    requires ArtifactKey(filename).Some?
    requires SaveArtifact(filename, content, Some(ctx), fs).reply.Saved?
    ensures var r := SaveArtifact(filename, content, Some(ctx), fs);
      ReadGeneratedCode(filename, r.ctx, r.fs) == ReadOk(Str(content))
  {
    WellKnownIsPlain(filename);
    PlainSegmentPaths(filename, Some(ctx));
    assert Name(ArtifactPath(filename, Some(ctx))) == filename;
  }

  /** Any other file saved under the session directory is not where
      `read_generated_code` looks for it. */
  lemma SavedPageReadElsewhere(name: string, ctx: Option<Context>)
    requires ValidSegment(name) && !StartsWith(name, "output")
    ensures ResolveCodePath(name) != ArtifactPath(name, ctx)
  {
    PlainSegmentPaths(name, ctx);
    assert |ArtifactPath(name, ctx)| >= 3;
  }

  /** The file each generator's output is saved as. */
  function ArtifactName(lang: Language): (name: string)
    ensures ArtifactKey(name) == Some(StateKey(lang))
  {
    StateKeysMatchArtifacts();
    match lang
    case Html => "index.html"
    case Css => "styles.css"
    case JavaScript => "scripts.js"
  }

  /** What a generator stored is what `read_generated_code` returns for its
      file, whatever is on disk. */
  lemma GenerateThenRead(lang: Language, apiKey: Option<string>, text: string, ctx: Context, fs: Tree)
    requires !KeyMissing(apiKey)
    ensures var g := Generate(lang, apiKey, Answered(text), Some(ctx));
      ReadGeneratedCode(ArtifactName(lang), g.ctx, fs) == ReadOk(Str(g.text))
  {
  }
}
