/** What every tool receives from the agent runtime: an optional tool context
    carrying the session id and the session's key/value state. */
module Session {
  import opened Common
  import opened Text
  import opened Json
  import opened Paths

  type State = map<string, Value>

  /** The runtime's `ToolContext`: absent when a tool is called directly. */
  datatype Context = Context(sessionId: string, state: State)

  /** The text of an error reply. `OsError` and `PythonError` stand for
      `str(e)` of an exception whose wording comes from the operating system
      or the interpreter. */
  datatype ErrorText =
    | Message(text: string)
    | OsError(path: Path)
    | PythonError

  /** `_get_session_output_dir`: `output/<session_id>/generated_website` when
      the context carries a non-empty session id, `output/generated_website`
      otherwise. The session id is joined as a path, so its own segments
      are kept. */
  function SessionOutputDir(ctx: Option<Context>): (dir: Path)
    ensures ValidPath(dir)
    ensures |dir| >= 2 && dir[0] == "output" && dir[|dir| - 1] == "generated_website"
    ensures (ctx.None? || ctx.value.sessionId == "") ==> dir == ["output", "generated_website"]
    ensures ctx.Some? && ctx.value.sessionId != "" ==>
      dir == ["output"] + Parse(ctx.value.sessionId) + ["generated_website"]
  {
    if ctx.Some? && ctx.value.sessionId != "" then
      ValidConcat(["output"], Parse(ctx.value.sessionId));
      ValidConcat(["output"] + Parse(ctx.value.sessionId), ["generated_website"]);
      ["output"] + Parse(ctx.value.sessionId) + ["generated_website"]
    else ["output", "generated_website"]
  }

  /** A one-segment session id gives exactly `output/<id>/generated_website`. */
  lemma SessionOutputDirOfId(ctx: Context)
    requires ValidSegment(ctx.sessionId)
    ensures SessionOutputDir(Some(ctx)) == ["output", ctx.sessionId, "generated_website"]
    ensures Render(SessionOutputDir(Some(ctx))) == "output/" + ctx.sessionId + "/generated_website"
  {
    ParseSegment(ctx.sessionId);
    var dir := ["output", ctx.sessionId, "generated_website"];
    assert SessionOutputDir(Some(ctx)) == dir;
    JoinThree("output", ctx.sessionId, "generated_website");
  }

  /** Joining three segments with "/" puts one separator between each pair. */
  lemma JoinThree(a: string, b: string, c: string)
    ensures Render([a, b, c]) == a + "/" + b + "/" + c
  {
    var p := [a, b, c];
    assert p[1..] == [b, c] && p[1..][1..] == [c];
    var tail := b + "/" + c;
    assert Join(p[1..], "/") == tail;
    assert Join(p, "/") == a + "/" + tail;
  }

  /** The state key that mirrors a well-known generated file, by file name. */
  function ArtifactKey(name: string): (key: Option<string>)
    ensures key.Some? <==> name in {"index.html", "styles.css", "scripts.js"}
    ensures key == Some("generated_html") <==> name == "index.html"
    ensures key == Some("generated_css") <==> name == "styles.css"
    ensures key == Some("generated_js") <==> name == "scripts.js"
  {
    if name == "index.html" then Some("generated_html")
    else if name == "styles.css" then Some("generated_css")
    else if name == "scripts.js" then Some("generated_js")
    else None
  }

  /** Each well-known file has its own state key. */
  lemma ArtifactKeyInjective(a: string, b: string)
    requires ArtifactKey(a).Some? && ArtifactKey(a) == ArtifactKey(b)
    ensures a == b
  {
  }

  /** The state after mirroring `content` under the key of file `name`, if any. */
  function MirrorArtifact(state: State, name: string, content: string): (s: State)
    ensures ArtifactKey(name).Some? ==> s == state[ArtifactKey(name).value := Str(content)]
    ensures ArtifactKey(name).None? ==> s == state
  {
    match ArtifactKey(name)
    case Some(key) => state[key := Str(content)]
    case None => state
  }

  /** What a call to the language model produced: its reply text, or the
      text of the exception it raised. */
  datatype ModelCall = Answered(text: string) | CallFailed(message: string)

  /** `os.environ.get("GOOGLE_API_KEY")` is unset or empty. */
  predicate KeyMissing(apiKey: Option<string>) {
    apiKey.None? || apiKey.value == ""
  }

  /** The reply dict `{"status": "error", "error": message}`. */
  function ErrorDict(message: string): (fields: seq<Field>)
    ensures Lookup(fields, "status") == Some(Str("error"))
    ensures Lookup(fields, "error") == Some(Str(message))
  {
    assert "error"[0] != "status"[0];
    [Field("status", Str("error")), Field("error", Str(message))]
  }

  /** The context with its state replaced. */
  function WithState(ctx: Context, state: State): Context {
    ctx.(state := state)
  }
}
