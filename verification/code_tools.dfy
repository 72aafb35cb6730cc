/** The deterministic part of `generate_html`, `generate_css` and
    `generate_javascript`: the missing-key guard, the clean-up of the model's
    reply and the state write. The model call itself is an input. */
module CodeTools {
  import opened Common
  import opened Text
  import opened Json
  import opened Session

  datatype Language = Html | Css | JavaScript

  datatype GenOutcome = GenOutcome(text: string, ctx: Option<Context>)

  /** The state key each generator writes. */
  function StateKey(lang: Language): string {
    match lang
    case Html => "generated_html"
    case Css => "generated_css"
    case JavaScript => "generated_js"
  }

  /** The returned text when `GOOGLE_API_KEY` is unset or empty. */
  function MissingKeyText(lang: Language): string {
    match lang
    case Html => "<!-- Error generating HTML: GOOGLE_API_KEY not found in environment -->"
    case Css => "/* Error generating CSS: GOOGLE_API_KEY not found in environment */"
    case JavaScript => "// Error generating JavaScript: GOOGLE_API_KEY not found in environment"
  }

  /** The returned text when the call raises with message `m`. */
  function FailureText(lang: Language, m: string): string {
    match lang
    case Html => "<!-- Error generating HTML: " + m + " -->"
    case Css => "/* Error generating CSS: " + m + " */"
    case JavaScript => "// Error generating JavaScript: " + m
  }

  /** The opening fence each generator looks for (the long form for JavaScript). */
  function Tag(lang: Language): string {
    match lang
    case Html => "```html"
    case Css => "```css"
    case JavaScript => "```javascript"
  }

  /** The opening tag removed once when the reply starts with it; for
      JavaScript "```javascript" is tried first and "```js" only otherwise. */
  function StripLeadingTag(lang: Language, s: string): (r: string)
    ensures |r| <= |s|
  {
    if StartsWith(s, Tag(lang)) then RemoveFirst(s, Tag(lang))
    else if lang == JavaScript && StartsWith(s, "```js") then RemoveFirst(s, "```js")
    else s
  }

  /** When the text ends with a fence, the FIRST fence anywhere in it is
      removed, which is the closing one only when no earlier fence exists. */
  function StripTrailingFence(s: string): (r: string)
    ensures |r| <= |s|
  {
    if EndsWith(s, "```") then RemoveFirst(s, "```") else s
  }

  /** The reply as the generator returns it. */
  function CleanCode(lang: Language, text: string): (r: string)
    ensures IsStripped(r)
    ensures |r| <= |text|
  {
    var t := StripTrailingFence(StripLeadingTag(lang, text));
    Strip(t)
  }

  /** One generator call: the key guard, the model call, the clean-up and
      the state write. */
  function Generate(lang: Language, apiKey: Option<string>, call: ModelCall, ctx: Option<Context>): (r: GenOutcome)
    // without a key the fixed error comment comes back and nothing is stored
    ensures KeyMissing(apiKey) ==> r == GenOutcome(MissingKeyText(lang), ctx)
    // a raising call is reported in the language's comment syntax
    ensures !KeyMissing(apiKey) && call.CallFailed? ==> r == GenOutcome(FailureText(lang, call.message), ctx)
    // otherwise the cleaned reply is returned and, with a context, stored
    ensures !KeyMissing(apiKey) && call.Answered? ==>
      && r.text == CleanCode(lang, call.text)
      && IsStripped(r.text)
      && (ctx.Some? ==> r.ctx == Some(ctx.value.(state := ctx.value.state[StateKey(lang) := Str(r.text)])))
    ensures ctx.None? ==> r.ctx.None?
  {
    if KeyMissing(apiKey) then GenOutcome(MissingKeyText(lang), ctx)
    else
      match call
      case CallFailed(m) => GenOutcome(FailureText(lang, m), ctx)
      case Answered(text) =>
        var cleaned := CleanCode(lang, text);
        match ctx
        case None => GenOutcome(cleaned, None)
        case Some(c) => GenOutcome(cleaned, Some(WithState(c, c.state[StateKey(lang) := Str(cleaned)])))
  }

  // ---------------------------------------------------------------- lemmas

  /** The generators write the same keys the file tools mirror into. */
  lemma StateKeysMatchArtifacts()
    ensures ArtifactKey("index.html") == Some(StateKey(Html))
    ensures ArtifactKey("styles.css") == Some(StateKey(Css))
    ensures ArtifactKey("scripts.js") == Some(StateKey(JavaScript))
  {
  }

  /** The opening tag is removed exactly once. */
  lemma LeadingTagRemoved(lang: Language, body: string)
    ensures StripLeadingTag(lang, Tag(lang) + body) == body
  {
    RemoveFirstOfPrefix(Tag(lang) + body, Tag(lang));
    assert (Tag(lang) + body)[|Tag(lang)|..] == body;
  }

  /** For JavaScript the short tag is removed only when the long one is absent,
      so never both. */
  lemma ShortJsTagRemoved(s: string)
    requires !StartsWith(s, "```javascript") && StartsWith(s, "```js")
    ensures StripLeadingTag(JavaScript, s) == s[5..]
  {
    RemoveFirstOfPrefix(s, "```js");
  }

  /** A reply without the opening tag is left alone by the tag step. */
  lemma UntaggedKept(lang: Language, s: string)
    requires !StartsWith(s, Tag(lang)) && (lang == JavaScript ==> !StartsWith(s, "```js"))
    ensures StripLeadingTag(lang, s) == s
  {
  }

  /** After a leading tag, cleaning is the fence step and `strip`. */
  lemma CleanAfterTag(lang: Language, rest: string)
    ensures CleanCode(lang, Tag(lang) + rest) == Strip(StripTrailingFence(rest))
  {
    LeadingTagRemoved(lang, rest);
  }

  /** The intended case: a fenced reply whose body holds no fence of its own
      comes back as the stripped body. */
  lemma FencedReplyCleaned(lang: Language, body: string)
    requires forall j: nat :: j < |body| ==> !OccursAt(body + "```", "```", j)
    ensures CleanCode(lang, Tag(lang) + body + "```") == Strip(body)
  {
    var t := body + "```";
    assert Tag(lang) + body + "```" == Tag(lang) + t;
    CleanAfterTag(lang, t);
    RemoveFirstOfSoleSuffix(t, "```");
    assert t[..|t| - 3] == body;
  }

  /** The first-occurrence rule: when the body already holds a fence, the
      earlier one is removed and the closing fence survives the clean-up. */
  lemma EarlierFenceKeepsClosing(lang: Language, body: string, i: nat)
    requires OccursAt(body, "```", i)
    ensures EndsWith(CleanCode(lang, Tag(lang) + body + "```"), "```")
  {
    var t := body + "```";
    assert Tag(lang) + body + "```" == Tag(lang) + t;
    CleanAfterTag(lang, t);
    EarlierFenceSurvives(body, i);
  }

  lemma EarlierFenceSurvives(body: string, i: nat)
    requires OccursAt(body, "```", i)
    ensures EndsWith(Strip(StripTrailingFence(body + "```")), "```")
  {
    var t := body + "```";
    assert OccursAt(t, "```", i) by { assert t[i..i + 3] == body[i..i + 3]; }
    RemoveFirstKeepsSuffix(t, "```", i);
    assert StripTrailingFence(t) == RemoveFirst(t, "```");
    assert !IsSpace('`');
    StripKeepsEnding(RemoveFirst(t, "```"), "```");
  }

  /** A fenced reply without a language tag: the tag step leaves it alone, the
      fence step removes the opening fence (the first one), and the closing
      fence survives the clean-up. */
  lemma UntaggedFenceKeepsClosing(lang: Language, body: string)
    ensures CleanCode(lang, "```\n" + body + "\n```") == Strip("\n" + body + "\n```")
    ensures EndsWith(CleanCode(lang, "```\n" + body + "\n```"), "```")
  {
    var rest := "\n" + body + "\n```";
    assert "```\n" + body + "\n```" == "```" + rest;
    assert EndsWith(rest, "```") by { assert rest[|rest| - 3..] == "```"; }
    OpeningFenceRemoved(lang, rest);
    assert !IsSpace('`');
    StripKeepsEnding(rest, "```");
  }

  /** A reply that opens with a bare fence and a newline and ends with a fence
      loses only the opening fence before `strip`. */
  lemma OpeningFenceRemoved(lang: Language, rest: string)
    requires |rest| >= 3 && rest[0] == '\n' && EndsWith(rest, "```")
    ensures CleanCode(lang, "```" + rest) == Strip(rest)
  {
    var s := "```" + rest;
    assert s[3] == '\n';
    assert Tag(lang)[3] != '\n';
    UntaggedKept(lang, s);
    assert EndsWith(s, "```") by { assert s[|s| - 3..] == rest[|rest| - 3..]; }
    RemoveFirstOfPrefix(s, "```");
    assert s[3..] == rest;
  }

  /** A closing fence followed by a newline is not at the very end, so it is
      not removed at all and survives the clean-up. */
  lemma FenceBeforeNewlineKept(lang: Language, body: string)
    ensures EndsWith(CleanCode(lang, Tag(lang) + body + "```\n"), "```")
  {
    var t := body + "```\n";
    assert Tag(lang) + body + "```\n" == Tag(lang) + t;
    CleanAfterTag(lang, t);
    NewlineAfterFence(body);
  }

  lemma NewlineAfterFence(body: string)
    ensures EndsWith(Strip(StripTrailingFence(body + "```\n")), "```")
  {
    var t := body + "```\n";
    assert !EndsWith(t, "```") by { assert t[|t| - 1] == '\n'; }
    assert "" + (body + "```") + "\n" == t;
    StripPadded("", body + "```", "\n");
    StripKeepsSuffix(body, "```");
  }

  /** A reply with no fence anywhere is only stripped. */
  lemma UnfencedReplyStripped(lang: Language, s: string)
    requires !Contains(s, "```")
    ensures CleanCode(lang, s) == Strip(s)
  {
    assert StartsWith(s, Tag(lang)) ==> OccursAt(s, "```", 0);
    assert StartsWith(s, "```js") ==> OccursAt(s, "```", 0);
    assert EndsWith(s, "```") ==> OccursAt(s, "```", |s| - 3);
  }

  /** Cleaning a fence-free reply twice is cleaning it once. */
  lemma CleanIdempotentWithoutFences(lang: Language, s: string)
    requires !Contains(s, "```")
    ensures CleanCode(lang, CleanCode(lang, s)) == CleanCode(lang, s)
  {
    UnfencedReplyStripped(lang, s);
    StripKeepsAbsence(s, "```");
    UnfencedReplyStripped(lang, Strip(s));
    StripIdempotent(s);
  }
}
