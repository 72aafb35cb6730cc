/** The deterministic part of `analyze_video_frames` and
    `extract_audio_transcript`: the input guards, the clean-up and parsing of
    the model's JSON reply, and the state writes. Downloading, uploading and
    the model call are inputs; so is the JSON parser. */
module VideoTools {
  import opened Common
  import opened Text
  import opened Json
  import opened Session

  // ------------------------------------------------------ dirtyjson values

  /** A value as `dirtyjson` returns it: dicts and lists may come back as its
      attributed containers, which carry position data the tools ignore.
      Entries are kept in order; as in `Json.Value`, a repeated key is
      representable here although a Python dict cannot hold one. */
  datatype Dirty =
    | DLeaf(v: Value)
    | DDict(attributed: bool, entries: seq<DEntry>)
    | DList(attributed: bool, elems: seq<Dirty>)

  datatype DEntry = DEntry(key: string, val: Dirty)

  /** `_convert_dirty_json`: every container, attributed or not, rebuilt as a
      plain dict or list, recursively; anything else is returned as is. */
  function Convert(d: Dirty): Value
    decreases d
  {
    match d
    case DLeaf(v) => v
    case DDict(_, entries) =>
      Obj(seq(|entries|, i requires 0 <= i < |entries| => Field(entries[i].key, Convert(entries[i].val))))
    case DList(_, elems) =>
      Arr(seq(|elems|, i requires 0 <= i < |elems| => Convert(elems[i])))
  }

  /** `v` has the structure of `d`: the same keys in the same order, lists of
      the same length in the same order, and the same leaves. */
  predicate SameShape(d: Dirty, v: Value)
    decreases d
  {
    match d
    case DLeaf(x) => v == x
    case DDict(_, entries) =>
      && v.Obj? && |v.fields| == |entries|
      && forall i :: 0 <= i < |entries| ==>
           v.fields[i].key == entries[i].key && SameShape(entries[i].val, v.fields[i].val)
    case DList(_, elems) =>
      && v.Arr? && |v.items| == |elems|
      && forall i :: 0 <= i < |elems| ==> SameShape(elems[i], v.items[i])
  }

  /** The plain value read as a `dirtyjson` value without attributes. */
  function Embed(v: Value): Dirty
    decreases v
  {
    match v
    case Obj(fields) =>
      DDict(false, seq(|fields|, i requires 0 <= i < |fields| => DEntry(fields[i].key, Embed(fields[i].val))))
    case Arr(items) =>
      DList(false, seq(|items|, i requires 0 <= i < |items| => Embed(items[i])))
    case _ => DLeaf(v)
  }

  /** Conversion preserves structure. */
  lemma {:induction false} ConvertSameShape(d: Dirty)
    ensures SameShape(d, Convert(d))
    decreases d
  {
    match d
    case DLeaf(_) =>
    case DDict(_, entries) =>
      forall i | 0 <= i < |entries| ensures SameShape(entries[i].val, Convert(d).fields[i].val) {
        ConvertSameShape(entries[i].val);
      }
    case DList(_, elems) =>
      forall i | 0 <= i < |elems| ensures SameShape(elems[i], Convert(d).items[i]) {
        ConvertSameShape(elems[i]);
      }
  }

  /** The structure fixes the value: conversion is the only structure-
      preserving result. */
  lemma {:induction false} SameShapeUnique(d: Dirty, v: Value, w: Value)
    requires SameShape(d, v) && SameShape(d, w)
    ensures v == w
    decreases d
  {
    match d
    case DLeaf(_) =>
    case DDict(_, entries) =>
      forall i | 0 <= i < |entries| ensures v.fields[i] == w.fields[i] {
        SameShapeUnique(entries[i].val, v.fields[i].val, w.fields[i].val);
      }
      assert v.fields == w.fields;
    case DList(_, elems) =>
      forall i | 0 <= i < |elems| ensures v.items[i] == w.items[i] {
        SameShapeUnique(elems[i], v.items[i], w.items[i]);
      }
      assert v.items == w.items;
  }

  /** A value without attributed containers converts to itself. */
  lemma {:induction false} ConvertEmbed(v: Value)
    ensures Convert(Embed(v)) == v
    decreases v
  {
    match v
    case Obj(fields) =>
      var c := Convert(Embed(v));
      forall i | 0 <= i < |fields| ensures c.fields[i] == fields[i] {
        ConvertEmbed(fields[i].val);
      }
      assert c.fields == fields;
    case Arr(items) =>
      var c := Convert(Embed(v));
      forall i | 0 <= i < |items| ensures c.items[i] == items[i] {
        ConvertEmbed(items[i]);
      }
      assert c.items == items;
    case _ =>
  }

  // ------------------------------------------------------ parsing the reply

  datatype Loaded = Loaded(value: Value) | LoadFailed(error: string)

  datatype DirtyLoaded = DirtyLoaded(dirty: Dirty) | DirtyLoadFailed(error: string)

  /** The JSON reader in use: `dirtyjson.loads` when that library is
      installed, `json.loads` otherwise. */
  datatype Parser =
    | DirtyJson(dirtyLoads: string -> DirtyLoaded)
    | StdJson(loads: string -> Loaded)

  /** One parse attempt, converted to plain values. */
  function Load(parser: Parser, text: string): (r: Loaded)
    ensures parser.DirtyJson? && parser.dirtyLoads(text).DirtyLoaded? ==>
      r.Loaded? && SameShape(parser.dirtyLoads(text).dirty, r.value)
    ensures parser.DirtyJson? && parser.dirtyLoads(text).DirtyLoadFailed? ==>
      r == LoadFailed(parser.dirtyLoads(text).error)
    ensures parser.StdJson? ==> r == parser.loads(text)
  {
    match parser
    case DirtyJson(f) =>
      (match f(text)
       case DirtyLoaded(d) => ConvertSameShape(d); Loaded(Convert(d))
       case DirtyLoadFailed(e) => LoadFailed(e))
    case StdJson(f) => f(text)
  }

  /** The fence clean-up before parsing: strip, drop a "```json" prefix, then
      a "```" prefix, then a "```" suffix, and strip again. */
  function StripJsonFences(text: string): (r: string)
    ensures IsStripped(r)
    ensures |r| <= |text|
  {
    Strip(DropFences(Strip(text)))
  }

  /** The three fence cuts, in order, on the stripped text. */
  function DropFences(t: string): (r: string)
    ensures |r| <= |t|
  {
    var t1 := if StartsWith(t, "```json") then t[7..] else t;
    var t2 := if StartsWith(t1, "```") then t1[3..] else t1;
    if EndsWith(t2, "```") then t2[..|t2| - 3] else t2
  }

  /** The retry text: from the first "{" through the last "}", empty when the
      last "}" comes first or is missing; `None` when there is no "{". */
  function BraceSlice(text: string): (r: Option<string>)
    ensures r.None? <==> !Contains(text, "{")
    // the slice starts at the first "{"
    ensures r.Some? ==>
      && Find(text, "{").Some?
      && text[Find(text, "{").value] == '{'
      && (forall j :: 0 <= j < Find(text, "{").value ==> text[j] != '{')
    // it is empty exactly when no "}" follows that "{"
    ensures r.Some? ==>
      (r.value == "" <==> forall j :: Find(text, "{").value <= j < |text| ==> text[j] != '}')
    // otherwise it runs through the last "}"
    ensures r.Some? && r.value != "" ==>
      && RFindChar(text, '}').Some?
      && r.value == text[Find(text, "{").value..RFindChar(text, '}').value + 1]
      && r.value[0] == '{' && r.value[|r.value| - 1] == '}'
      && Contains(text, r.value)
  {
    match Find(text, "{")
    case None => None
    case Some(start) =>
      assert text[start..start + 1] == "{";
      assert forall j :: 0 <= j < start ==> text[j] != '{' by {
        forall j | 0 <= j < start
          ensures text[j] != '{'
        {
          assert !OccursAt(text, "{", j);
          assert text[j..j + 1] == [text[j]];
        }
      }
      var end := match RFindChar(text, '}') case Some(j) => j + 1 case None => 0;
      if end > start then
        assert OccursAt(text, text[start..end], start);
        Some(text[start..end])
      else Some("")
  }

  /** The parse result as a dict: a list under "items", a dict as is, any
      other value under "content". */
  function Wrap(v: Value): (fields: seq<Field>)
    ensures v.Arr? ==> Keys(fields) == ["items"] && Lookup(fields, "items") == Some(v)
    ensures v.Obj? ==> fields == v.fields
    ensures !v.Arr? && !v.Obj? ==> Keys(fields) == ["content"] && Lookup(fields, "content") == Some(v)
  {
    match v
    case Arr(_) => [Field("items", v)]
    case Obj(fields) => fields
    case _ => [Field("content", v)]
  }

  datatype JsonResult = JsonOk(fields: seq<Field>) | JsonRaised(error: string)

  /** `_parse_json_response(text)`: one parse of the cleaned text, then one
      retry on the brace slice; when both fail, or the retry reads `null`,
      the FIRST error propagates. */
  function ParseJsonResponse(parser: Parser, text: string): (r: JsonResult)
    ensures Load(parser, StripJsonFences(text)).Loaded? ==>
      r == JsonOk(Wrap(Load(parser, StripJsonFences(text)).value))
    ensures Load(parser, StripJsonFences(text)).LoadFailed? && r.JsonRaised? ==>
      r.error == Load(parser, StripJsonFences(text)).error
    ensures Load(parser, StripJsonFences(text)).LoadFailed? && r.JsonOk? ==>
      && BraceSlice(StripJsonFences(text)).Some?
      && Load(parser, BraceSlice(StripJsonFences(text)).value).Loaded?
      && Load(parser, BraceSlice(StripJsonFences(text)).value).value != Null
      && r.fields == Wrap(Load(parser, BraceSlice(StripJsonFences(text)).value).value)
  {
    var t := StripJsonFences(text);
    match Load(parser, t)
    case Loaded(v) => JsonOk(Wrap(v))
    case LoadFailed(e) =>
      match BraceSlice(t)
      case None => JsonRaised(e)
      case Some(js) =>
        match Load(parser, js)
        case Loaded(v) => if v == Null then JsonRaised(e) else JsonOk(Wrap(v))
        case LoadFailed(_) => JsonRaised(e)
  }

  /** A reply that is a list whose first element is a dict holding `marker`
      is replaced by that element; anything else is kept. */
  function UnwrapFirstItem(fields: seq<Field>, marker: string): (r: seq<Field>)
    ensures r == fields ||
      (Lookup(fields, "items").Some? && Lookup(fields, "items").value.Arr?
       && |Lookup(fields, "items").value.items| > 0
       && Lookup(fields, "items").value.items[0].Obj?
       && r == Lookup(fields, "items").value.items[0].fields
       && marker in Keys(r))
  {
    match Lookup(fields, "items")
    case Some(Arr(items)) =>
      if |items| > 0 && items[0].Obj? && marker in Keys(items[0].fields) then items[0].fields
      else fields
    case _ => fields
  }

  // ------------------------------------------------------ the two tools

  /** Which of the two tools runs: they differ only in the key that marks
      the real answer inside a list and in where the result is stored. */
  datatype VideoTask = Frames | Transcript

  function Marker(task: VideoTask): string {
    match task
    case Frames => "design_tokens"
    case Transcript => "page_content"
  }

  function ResultsKey(task: VideoTask): string {
    match task
    case Frames => "video_analysis_results"
    case Transcript => "content_extraction_results"
  }

  /** What the outside world does during one call: whether the path is a
      YouTube URL (the URL pattern itself is not modelled), the download's
      error if any, whether a local file exists, the API key, and the upload
      plus model call. */
  datatype VideoEnv = VideoEnv(
    isYoutube: bool,
    downloadError: Option<string>,
    fileExists: bool,
    apiKey: Option<string>,
    call: ModelCall)

  datatype VideoOutcome = VideoOutcome(result: seq<Field>, ctx: Option<Context>)

  /** The call gets as far as the model's reply. */
  predicate Reached(videoPath: string, env: VideoEnv) {
    && videoPath != ""
    && (env.isYoutube ==> env.downloadError.None?)
    && (!env.isYoutube ==> env.fileExists)
    && !KeyMissing(env.apiKey)
    && env.call.Answered?
  }

  /** The dict built from the model's reply text, before it is tagged. */
  function ReplyResults(task: VideoTask, parser: Parser, text: string): seq<Field> {
    match ParseJsonResponse(parser, text)
    case JsonOk(fields) => UnwrapFirstItem(fields, Marker(task))
    case JsonRaised(e) => [Field("raw_response", Str(text)), Field("error", Str(e))]
  }

  /** The state after a completed call: the results, and for the frame
      analysis also its design tokens (an empty dict when absent). */
  function StoreResults(task: VideoTask, state: State, results: seq<Field>): State {
    match task
    case Frames =>
      state["video_analysis_results" := Obj(results)]["design_tokens" := Get(results, "design_tokens", Obj([]))]
    case Transcript =>
      state["content_extraction_results" := Obj(results)]
  }

  /** `analyze_video_frames(video_path, sample_rate, tool_context)` for
      `Frames` and `extract_audio_transcript(video_path, tool_context)` for
      `Transcript`; the sample rate is never used. */
  function AnalyzeVideo(task: VideoTask, videoPath: string, env: VideoEnv, parser: Parser,
                        ctx: Option<Context>): (r: VideoOutcome)
    // an empty path is refused before anything else happens
    ensures videoPath == "" ==> r == VideoOutcome(ErrorDict("Video path is required"), ctx)
    // a call that reaches the model's reply always reports success
    ensures Lookup(r.result, "status") == Some(Str("success")) <==> Reached(videoPath, env)
    ensures !Reached(videoPath, env) ==> r.ctx == ctx && Lookup(r.result, "status") == Some(Str("error"))
    ensures Reached(videoPath, env) ==>
      && (ctx.Some? ==> r.ctx == Some(WithState(ctx.value, StoreResults(task, ctx.value.state, r.result))))
      && (ctx.None? ==> r.ctx.None?)
  {
    if videoPath == "" then VideoOutcome(ErrorDict("Video path is required"), ctx)
    else if env.isYoutube && env.downloadError.Some? then
      VideoOutcome(ErrorDict("Failed to download YouTube video: " + env.downloadError.value), ctx)
    else if !env.isYoutube && !env.fileExists then
      VideoOutcome(ErrorDict("Video file not found: " + videoPath), ctx)
    else if KeyMissing(env.apiKey) then
      VideoOutcome(ErrorDict("GOOGLE_API_KEY not found in environment"), ctx)
    else
      match env.call
      case CallFailed(m) => VideoOutcome(ErrorDict(m), ctx)
      case Answered(text) =>
        var results := Put(ReplyResults(task, parser, text), "status", Str("success"));
        match ctx
        case None => VideoOutcome(results, None)
        case Some(c) => VideoOutcome(results, Some(WithState(c, StoreResults(task, c.state, results))))
  }

  // ---------------------------------------------------------------- lemmas

  /** A fenced reply, with any whitespace around it, cleans to its stripped body. */
  lemma FencedJsonCleaned(a: string, body: string, c: string)
    requires AllSpace(a) && AllSpace(c)
    requires !StartsWith(body + "```", "```")
    ensures StripJsonFences(a + "```json" + body + "```" + c) == Strip(body)
  {
    var inner := "```json" + body + "```";
    assert IsStripped(inner) by { assert inner[0] == '`' && inner[|inner| - 1] == '`'; }
    assert a + "```json" + body + "```" + c == a + inner + c;
    StripInverse(a, inner, c);
    assert StartsWith(inner, "```json") by { assert inner[..7] == "```json"; }
    AfterPrefix("```json", body, "```");
    var t2 := body + "```";
    assert EndsWith(t2, "```");
    assert t2[..|t2| - 3] == body;
    assert DropFences(inner) == body;
  }

  lemma AfterPrefix(p: string, b: string, c: string)
    ensures (p + b + c)[|p|..] == b + c
  {
    var s := p + b + c;
    assert forall i :: 0 <= i < |b| + |c| ==> s[|p| + i] == (b + c)[i];
  }

  /** A bare JSON text with no fence at either end is passed to the parser
      unchanged. */
  lemma BareJsonKept(s: string)
    requires IsStripped(s) && !StartsWith(s, "```") && !EndsWith(s, "```")
    ensures StripJsonFences(s) == s
  {
    StripOfStripped(s);
    DropFencesBare(s);
  }

  lemma DropFencesBare(s: string)
    requires !StartsWith(s, "```") && !EndsWith(s, "```")
    ensures DropFences(s) == s
  {
    assert !StartsWith(s, "```json") by {
      if |s| >= 7 {
        assert s[..3] == s[..7][..3];
      }
    }
  }

  /** When the first parse fails and there is no "{" at all, the first
      error propagates. */
  lemma NoBraceRaises(parser: Parser, text: string)
    requires Load(parser, StripJsonFences(text)).LoadFailed?
    requires !Contains(StripJsonFences(text), "{")
    ensures ParseJsonResponse(parser, text) == JsonRaised(Load(parser, StripJsonFences(text)).error)
  {
  }

  /** The retry can rescue a reply with text around a JSON object. */
  lemma BraceRetryRescues(parser: Parser, text: string, v: Value)
    requires Load(parser, StripJsonFences(text)).LoadFailed?
    requires BraceSlice(StripJsonFences(text)).Some?
    requires Load(parser, BraceSlice(StripJsonFences(text)).value) == Loaded(v) && v != Null
    ensures ParseJsonResponse(parser, text) == JsonOk(Wrap(v))
  {
  }

  /** Prose around one object: text before it without "{" and text after it
      without "}" is cut off, and the object, braces and all, is retried. */
  lemma {:induction false} BraceSliceAroundObject(pre: string, body: string, post: string)
    requires forall i :: 0 <= i < |pre| ==> pre[i] != '{'
    requires forall i :: 0 <= i < |post| ==> post[i] != '}'
    ensures BraceSlice(pre + "{" + body + "}" + post) == Some("{" + body + "}")
  {
    var text := pre + "{" + body + "}" + post;
    var open := |pre|;
    var close := |pre| + 1 + |body|;
    ObjectInText(pre, body, post);
    assert OccursAt(text, "{", open);
    var r := BraceSlice(text);
    var first := Find(text, "{").value;
    assert first == open;
    assert r.value != "";
    assert RFindChar(text, '}').value == close;
  }

  /** Where the braces sit in `pre + "{" + body + "}" + post`. */
  lemma ObjectInText(pre: string, body: string, post: string)
    requires forall i :: 0 <= i < |pre| ==> pre[i] != '{'
    requires forall i :: 0 <= i < |post| ==> post[i] != '}'
    ensures var text := pre + "{" + body + "}" + post;
      var open := |pre|;
      var close := |pre| + 1 + |body|;
      && close < |text|
      && text[open..open + 1] == "{" && text[open] == '{' && text[close] == '}'
      && (forall i :: 0 <= i < open ==> text[i] != '{')
      && (forall i :: close < i < |text| ==> text[i] != '}')
      && text[open..close + 1] == "{" + body + "}"
  {
    var text := pre + "{" + body + "}" + post;
    var close := |pre| + 1 + |body|;
    assert forall i :: 0 <= i < |pre| ==> text[i] == pre[i];
    assert forall i :: close < i < |text| ==> text[i] == post[i - close - 1];
  }

  /** A list reply whose first element is the real answer is unwrapped to it. */
  lemma UnwrapWrappedList(first: seq<Field>, rest: seq<Value>, marker: string)
    requires marker in Keys(first)
    ensures UnwrapFirstItem(Wrap(Arr([Obj(first)] + rest)), marker) == first
  {
  }

  /** A list whose first element lacks the marker stays wrapped under "items". */
  lemma ListWithoutMarkerStaysWrapped(items: seq<Value>, marker: string)
    requires |items| == 0 || !items[0].Obj? || marker !in Keys(items[0].fields)
    ensures UnwrapFirstItem(Wrap(Arr(items)), marker) == [Field("items", Arr(items))]
  {
  }

  /** A call that reaches the reply returns the reply's dict tagged "success". */
  lemma ReachedResult(task: VideoTask, videoPath: string, env: VideoEnv, parser: Parser,
                      ctx: Option<Context>)
    requires Reached(videoPath, env)
    ensures AnalyzeVideo(task, videoPath, env, parser, ctx).result
         == Put(ReplyResults(task, parser, env.call.text), "status", Str("success"))
  {
  }

  /** An unparseable reply is still a success, carrying the raw text and the
      parser's error. */
  lemma UnparseableReplyIsSuccess(task: VideoTask, videoPath: string, env: VideoEnv, parser: Parser,
                                  ctx: Option<Context>)
    requires Reached(videoPath, env)
    requires ParseJsonResponse(parser, env.call.text).JsonRaised?
    ensures var r := AnalyzeVideo(task, videoPath, env, parser, ctx).result;
      && Lookup(r, "status") == Some(Str("success"))
      && Lookup(r, "raw_response") == Some(Str(env.call.text))
      && Lookup(r, "error") == Some(Str(ParseJsonResponse(parser, env.call.text).error))
  {
    var text := env.call.text;
    assert ReplyResults(task, parser, text)
        == [Field("raw_response", Str(text)), Field("error", Str(ParseJsonResponse(parser, text).error))];
    ReachedResult(task, videoPath, env, parser, ctx);
    TaggedFailure(text, ParseJsonResponse(parser, text).error);
  }

  lemma TaggedFailure(text: string, e: string)
    ensures var r := Put([Field("raw_response", Str(text)), Field("error", Str(e))], "status", Str("success"));
      && Lookup(r, "status") == Some(Str("success"))
      && Lookup(r, "raw_response") == Some(Str(text))
      && Lookup(r, "error") == Some(Str(e))
  {
    var base := [Field("raw_response", Str(text)), Field("error", Str(e))];
    assert "raw_response"[0] != "error"[0] && "status"[0] != "raw_response"[0] && "status"[0] != "error"[0];
    LookupAt(base, 0);
    LookupAt(base, 1);
  }

  /** Only the results key, and for the frame analysis the design-tokens key,
      change in the state. */
  lemma VideoStateKeys(task: VideoTask, videoPath: string, env: VideoEnv, parser: Parser, ctx: Context)
    requires Reached(videoPath, env)
    ensures var s := ctx.state;
      var s' := AnalyzeVideo(task, videoPath, env, parser, Some(ctx)).ctx.value.state;
      var touched := if task == Frames then {"video_analysis_results", "design_tokens"}
                     else {"content_extraction_results"};
      && s'.Keys == s.Keys + touched
      && (forall k :: k in s && k !in touched ==> s'[k] == s[k])
      && s'[ResultsKey(task)] == Obj(AnalyzeVideo(task, videoPath, env, parser, Some(ctx)).result)
  {
  }
}
