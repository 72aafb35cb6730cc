# vid2web tool bodies in Dafny

vid2web turns a walkthrough video of a website into a generated site. A
chain of LLM agents runs in order:

1. analyse the video;
2. plan the architecture;
3. generate HTML, CSS and JavaScript;
4. validate and refine the result in a loop.

The agents act through tools: small Python functions. Each one takes its
arguments and the session's key/value state, may touch files under
`output/`, and returns a result dict.

This project models those tool bodies as pure functions. A tool call becomes
a function from its inputs, an optional tool context (session id and state)
and a file tree to the reply, the new context and the new file tree. The
language model, the JSON parser, the browser and axe-core are inputs: their
answers are parameters, not behaviour the model invents.

Modules, following the repository's files:

- `Common`, `Text`, `Json`, `Paths`, `FileTree`, `Session` hold the shared
  vocabulary:
  - options, ASCII `strip`/`lower`, `str(int)`;
  - dicts as insertion-ordered field lists and Python truthiness;
  - `pathlib` paths as segment sequences;
  - a file tree of files and directories, with `mkdir`, `write_text` and
    `read_text`;
  - the tool context, the session output directory, and the mirror of the
    well-known files into the state.
- `LoopTools`: `check_validation_status`, the exit rule of the
  validate/refine loop.
- `RefinementTools`: `read_generated_code` and `apply_code_fixes`.
- `FileTools`: `save_artifact` and `create_project_structure`.
- `ComponentTools`: `save_component`.
- `ArchitectureTools`: `save_page_structure`.
- `CodeTools`: the deterministic parts of `generate_html`, `generate_css` and
  `generate_javascript`:
  - the missing-key and failure texts;
  - the clean-up of markdown fences;
  - the state write.
- `VideoTools`:
  - `_convert_dirty_json`;
  - `_parse_json_response`;
  - first-item unwrapping;
  - the control flow shared by `analyze_video_frames` and
    `extract_audio_transcript`.
- `ValidationTools`: the aggregation in `validate_accessibility` and
  `check_responsive_layout`.
- `HtmlUtils`: `validate_html`.
- `ToolSequences`: what one tool leaves for the next, such as a fix or a
  generated file that reads back.

Two facts about the code shape what is modelled:

- The validate/refine loop is the agent framework's
  `LoopAgent(max_iterations=5)` (`src/video_to_website/agent.py:55-60`). No
  tool ends it early, so the model has no loop of its own.
- `apply_code_fixes` takes one `file_path`, one `fixed_code` and an
  `explanation`. It rewrites that one whole file per call, and nothing checks
  where the path leads. `ResolveKeepsParentStep` and `ResolveOutputsSibling`
  show paths that pass through unchanged. An integration test looks for a
  `fixes` list among the call's arguments
  (`tests/integration/test_refinement_pipeline.py:68-71`). The tool has no
  such parameter.

The model also exhibits one inconsistency between tools without calling it a
bug:

- `save_artifact` writes under `output/<session>/generated_website/`.
- `read_generated_code` and `apply_code_fixes` resolve a bare name under
  `output/`.
- A well-known file still reads back, because the state is consulted first
  (`SaveThenRead`). Any other page is looked for elsewhere
  (`SavedPageReadElsewhere`).

## Model

Paths are relative to the repository root.

| member | source | states |
|---|---|---|
| Session.SessionOutputDir | src/video_to_website/tools/file_tools.py:12-20 | the session directory is `output/<session id>/generated_website` when the context carries a non-empty session id and `output/generated_website` otherwise; it always starts at `output` and ends in `generated_website` (the same rule is repeated in component_tools.py:12-18 and video_tools.py:43-49) |
| Session.SessionOutputDirOfId | src/video_to_website/tools/file_tools.py:15-17 | for a one-segment session id the directory prints as `output/<id>/generated_website` |
| Session.ArtifactKey | src/video_to_website/tools/file_tools.py:66-71 | `index.html`, `styles.css` and `scripts.js` map to `generated_html`, `generated_css` and `generated_js`, each as an if-and-only-if; no other name has a state key |
| Session.ArtifactKeyInjective | src/video_to_website/tools/refinement_tools.py:85-90 | two file names that share a state key are the same name |
| Session.MirrorArtifact | src/video_to_website/tools/refinement_tools.py:84-90 | a well-known name sets exactly its key to the content; any other name leaves the state as it was |
| Paths.ParseRender | src/video_to_website/tools/file_tools.py:50 | `Path(str(p))` has the same segments as `p`, so a printed path names the place it was built from |
| Paths.ParseJoin | src/video_to_website/tools/refinement_tools.py:38 | segments joined by '/' parse back to the same segments |
| FileTree.MakeDirsSpec | src/video_to_website/tools/file_tools.py:60 | after `mkdir(parents=True, exist_ok=True)` the directory and all its ancestors exist, no file changed, and a well-formed tree stays well-formed |
| FileTree.MakeDirsIdempotent | src/video_to_website/tools/file_tools.py:96 | making the same directories twice gives the tree one call gives |
| FileTree.MakeDirsFails | src/video_to_website/tools/file_tools.py:60 | `mkdir(parents=True)` fails only when a prefix of the path is a file |
| FileTree.WriteTextSpec | src/video_to_website/tools/refinement_tools.py:81 | `write_text` replaces one file's whole content, adds at most that file, keeps every other file and all directories, and keeps the tree well-formed |
| FileTree.WriteTextIdempotent | src/video_to_website/tools/refinement_tools.py:81 | writing the same content twice leaves the tree one write leaves |
| FileTree.WriteExistingFile | src/video_to_website/tools/refinement_tools.py:77-81 | in a well-formed tree an existing file can always be overwritten |
| Text.StripIdempotent | src/video_to_website/tools/code_tools.py:69 | `strip` applied twice is `strip` once |
| Text.StripInverse | src/video_to_website/tools/code_tools.py:69 | stripping whitespace padding from a stripped text gives that text back |
| Text.StripPadded | src/video_to_website/tools/video_tools.py:115 | whitespace around a text does not change what `strip` returns |
| Text.RemoveFirstOfPrefix | src/video_to_website/tools/code_tools.py:64-65 | `replace(tag, "", 1)` on a text starting with the tag drops exactly the leading tag |
| Text.RemoveFirstOfSoleSuffix | src/video_to_website/tools/code_tools.py:66-67 | `replace("```", "", 1)` removes the closing fence when it is the only occurrence |
| Text.RemoveFirstKeepsSuffix | src/video_to_website/tools/code_tools.py:66-67 | when an earlier occurrence exists, `replace(..., 1)` removes that one and the text still ends with the fence |
| Text.Find | src/video_to_website/tools/video_tools.py:134 | `text.find` gives the first occurrence, or none exactly when the pattern does not occur |
| Text.JoinContainsPart | src/video_to_website/tools/validation_tools.py:258 | every part occurs in the text `sep.join(parts)` builds |
| Text.RFindChar | src/video_to_website/tools/video_tools.py:135 | `text.rfind` gives the last occurrence of the character, or none |
| Text.IntToStringInjective | src/video_to_website/tools/validation_tools.py:257 | `str(a) == str(b)` exactly when `a == b`, so two widths share a result key only when equal |
| Json.Lookup | src/video_to_website/tools/loop_tools.py:26 | `d.get(key)` finds a value exactly when the key is among the dict's keys, and the field it finds is in the dict |
| Json.Put | src/video_to_website/tools/video_tools.py:226 | after `d[key] = v` the key reads `v` and every other key reads as before |
| Json.PutKeys | src/video_to_website/tools/video_tools.py:226 | assignment keeps the key order, and a new key goes last |
| Json.TabulateLastWins | src/video_to_website/tools/validation_tools.py:212-259 | filling a dict in order keeps, for each key, the value of its last assignment |
| Json.TabulateKeys | src/video_to_website/tools/validation_tools.py:212-259 | the filled dict's keys are exactly the keys assigned |
| Json.PutNoDupKeys | src/video_to_website/tools/video_tools.py:226 | assignment never makes a dict repeat a key |
| Json.TabulateNoDupKeys | src/video_to_website/tools/validation_tools.py:256-259 | the dict filled width by width repeats no key |
| LoopTools.CheckValidationStatus | src/video_to_website/tools/loop_tools.py:11-43 | a truthy `passed` is returned as given. Otherwise the result is true exactly when no issue has severity "error", and is the original falsy `passed` when one does. Iterating a non-iterable issues value or an issue without `.get` raises. The status is "success"; the message is "Validation passed" exactly when the verdict is truthy. With a context exactly `validation_passed` is set to the verdict |
| LoopTools.CriticalScan | src/video_to_website/tools/loop_tools.py:31 | the issue scan raises exactly when some issue is not a dict, and finds a critical issue exactly when some issue's severity equals "error" |
| LoopTools.MissingPassedIsFalse | src/video_to_website/tools/loop_tools.py:26 | a report without `passed` gives the same outcome as one with `passed` false |
| LoopTools.NoIssuesPasses | src/video_to_website/tools/loop_tools.py:29-33 | with `passed` false, a missing or empty issues list passes |
| LoopTools.WarningsOnlyPasses | src/video_to_website/tools/loop_tools.py:29-33 | with `passed` false, issues none of which has severity "error" pass |
| LoopTools.AnyErrorBlocks | src/video_to_website/tools/loop_tools.py:29-33 | with `passed` false, one issue of severity "error" fails the check with the refinement message |
| LoopTools.SeverityIsExact | src/video_to_website/tools/loop_tools.py:31 | "Error", "critical" and a missing severity are not critical; "error" is |
| LoopTools.OnlyVerdictStored | src/video_to_website/tools/loop_tools.py:35-37 | with a context only `validation_passed` changes and it equals the returned verdict; without one there is no state |
| LoopTools.EncodedIssueCritical | src/video_to_website/schemas/validation_results.py:4-12 | an issue written as JSON counts as critical exactly when its typed severity is "error" |
| LoopTools.CheckAgreesWithDecide | src/video_to_website/tools/loop_tools.py:26-33 | on every typed validator report the tool decides, and returns exactly the typed rule: passed, or no issue of severity "error" |
| RefinementTools.ResolveCodePath | src/video_to_website/tools/refinement_tools.py:38-40 | a name whose printed path begins with the characters "output" is used as it is, any other name is put under `output`; the result is never empty |
| RefinementTools.ReadGeneratedCode | src/video_to_website/tools/refinement_tools.py:12-49 | a well-known name whose mirror key is in the state is answered from the state without touching files. Otherwise the resolved file's content is returned. A missing path gives "File not found: <name>", and a path that exists but is no file gives an OS error |
| RefinementTools.ApplyCodeFixes | src/video_to_website/tools/refinement_tools.py:52-100 | a missing target gives "File not found: <path>" and changes no file and no state. Success replaces the whole file with the fixed code, changes nothing else on disk, and replies "Fixed <name>". Without a context there is no state |
| RefinementTools.ResolvePlainName | src/video_to_website/tools/refinement_tools.py:73-75 | `index.html` is looked up as `output/index.html` |
| RefinementTools.ResolveOutputsSibling | src/video_to_website/tools/refinement_tools.py:73-75 | `outputs/x` passes unchanged: the prefix rule is on characters, not segments |
| RefinementTools.ResolveKeepsParentStep | src/video_to_website/tools/refinement_tools.py:73-75 | `output/../x` passes unchanged: nothing checks containment |
| RefinementTools.CounterIsNotMirrored | src/video_to_website/tools/refinement_tools.py:84-94 | no file name mirrors into `refinement_count` |
| RefinementTools.ApplySucceedsIff | src/video_to_website/tools/refinement_tools.py:77-96 | on a well-formed tree the fix succeeds exactly when the target is an existing file and any stored counter is a number |
| RefinementTools.ApplyUpdatesState | src/video_to_website/tools/refinement_tools.py:84-94 | a successful call with a context raises `refinement_count` by one (from 0 when absent) and mirrors a well-known file. The key set grows by just those keys, and every other key keeps its value |
| RefinementTools.ApplyTwiceSameFiles | src/video_to_website/tools/refinement_tools.py:81 | applying the same fix twice leaves the files that one application leaves |
| FileTools.CleanFilename | src/video_to_website/tools/file_tools.py:45-53 | a name not beginning with "output" is kept. Otherwise the segments after the first `generated_website` are kept, else those after the first `output`, else the name itself |
| FileTools.ArtifactPath | src/video_to_website/tools/file_tools.py:42-55 | the target's segments begin with the session directory's segments, and every segment is valid. A ".." in the name is kept as a literal segment, so the file can land outside that directory |
| FileTools.ArtifactPathSegments | src/video_to_website/tools/file_tools.py:45-55 | the target path is the session directory followed by the cleaned segments, case by case |
| FileTools.LegacyPrefixDropped | src/video_to_website/tools/file_tools.py:46-50 | `output/generated_website/<q>` is saved as `<session dir>/<q>` |
| FileTools.ArtifactKeepsParentStep | src/video_to_website/tools/file_tools.py:45-55 | without a session, "../x" is written to `output/generated_website/../x`: the ".." is not resolved, so the file lands beside `generated_website` |
| FileTools.PlainNameKept | src/video_to_website/tools/file_tools.py:45-55 | a name not beginning with "output" is joined unchanged under the session directory |
| FileTools.SaveArtifact | src/video_to_website/tools/file_tools.py:23-76 | without a context nothing changes and the error is "ToolContext is required". On success the reply names the target, the file holds exactly the content, no other file changes, directories only grow, and the state mirrors a well-known name by basename. On failure neither files nor state change |
| FileTools.SavedNameParsesBack | src/video_to_website/tools/file_tools.py:73 | the returned filename parses back to the path written |
| FileTools.SaveSucceedsIff | src/video_to_website/tools/file_tools.py:59-63 | on a well-formed tree, with a context, the save succeeds exactly when no proper prefix of the target is a file and the target is not a directory |
| FileTools.SaveArtifactIdempotent | src/video_to_website/tools/file_tools.py:60-71 | saving the same content twice leaves the same tree and state as saving it once |
| FileTools.CreateProjectStructure | src/video_to_website/tools/file_tools.py:79-107 | on success the session directory and its `assets` and `components` folders exist and the reply names the session directory; no file changes and directories only grow |
| FileTools.CreateProjectIdempotent | src/video_to_website/tools/file_tools.py:94-98 | a second call leaves the tree the first call left |
| FileTools.CreateProjectSucceedsIff | src/video_to_website/tools/file_tools.py:94-98 | on a well-formed tree the call succeeds exactly when no prefix of the session directory, nor its `assets` or `components` entry, is a file |
| ComponentTools.Extension | src/video_to_website/tools/component_tools.py:42-46 | `jsx` exactly for type "react", `vue` exactly for "vue", both compared lower-cased, and `html` for everything else |
| ComponentTools.ComponentPath | src/video_to_website/tools/component_tools.py:48-55 | the path's segments begin with the segments of the session's `components` folder, with at least one more, and every segment is valid. A ".." in the name is kept as a literal segment |
| ComponentTools.ComponentKeepsParentStep | src/video_to_website/tools/component_tools.py:48-55 | without a session, an HTML component named "../x" goes to `output/generated_website/components/../x.html`, beside the `components` folder |
| ComponentTools.PlainComponentPath | src/video_to_website/tools/component_tools.py:48-55 | a name without '/' is saved as `components/<name>.<ext>`, and its parent is the `components` folder |
| ComponentTools.SaveComponent | src/video_to_website/tools/component_tools.py:21-70 | on success the reply gives the written path and the file holds exactly the code. The `components` folder exists once it could be made. A failure leaves the context unchanged |
| ComponentTools.SaveRecordsComponent | src/video_to_website/tools/component_tools.py:61-66 | with a context the registry grows by one record at the end, earlier records are kept, and the record names the returned path and the type as given |
| ComponentTools.RegistryMustBeList | src/video_to_website/tools/component_tools.py:62-64 | once the file is written, the save fails exactly when the stored registry is not a list |
| ComponentTools.RecordedPathParsesBack | src/video_to_website/tools/component_tools.py:63-66 | the recorded and returned path parses back to where the file was written |
| ComponentTools.SaveTwiceRecordsTwice | src/video_to_website/tools/component_tools.py:58-64 | saving the same component twice leaves one file but two identical records |
| ArchitectureTools.SavePageStructure | src/video_to_website/tools/architecture_tools.py:11-42 | without a context the reply is "No ToolContext available." and there is no state. With one the reply is "Architecture saved to state.", `site_architecture` is added, and no other key changes |
| ArchitectureTools.ArchitectureReadsBack | src/video_to_website/tools/architecture_tools.py:33-38 | each of the four arguments reads back under its own key |
| ArchitectureTools.StoredPlanReadsBack | src/video_to_website/tools/architecture_tools.py:33-39 | the stored record has exactly the four keys in order, each giving back its argument |
| ArchitectureTools.LatestPlanWins | src/video_to_website/tools/architecture_tools.py:39 | a second save replaces the first plan: the state is as if only the second call ran |
| CodeTools.CleanCode | src/video_to_website/tools/code_tools.py:63-69 | the cleaned reply has no leading or trailing whitespace and is never longer than the reply |
| CodeTools.Generate | src/video_to_website/tools/code_tools.py:15-205 | without a key the language's fixed error comment is returned and the state is untouched. A raising call gives the error in the language's comment syntax. Otherwise the cleaned reply is returned and, with a context, stored under `generated_html`, `generated_css` or `generated_js` |
| CodeTools.StateKeysMatchArtifacts | src/video_to_website/tools/code_tools.py:71-72 | the generators write the keys the file tools mirror `index.html`, `styles.css` and `scripts.js` into |
| CodeTools.LeadingTagRemoved | src/video_to_website/tools/code_tools.py:64-65 | the opening tag ("```html", "```css", "```javascript") is removed exactly once |
| CodeTools.ShortJsTagRemoved | src/video_to_website/tools/code_tools.py:189-192 | "```js" is removed only when "```javascript" is not there |
| CodeTools.UntaggedKept | src/video_to_website/tools/code_tools.py:64 | a reply without the opening tag is not cut at the front |
| CodeTools.FencedReplyCleaned | src/video_to_website/tools/code_tools.py:64-69 | a tagged reply with one closing fence cleans to its stripped body |
| CodeTools.EarlierFenceKeepsClosing | src/video_to_website/tools/code_tools.py:66-67 | when the body already holds "```", that earlier fence is removed and the closing fence stays |
| CodeTools.FenceBeforeNewlineKept | src/video_to_website/tools/code_tools.py:66-69 | a closing fence followed by a newline is not removed: the end test runs before the strip |
| CodeTools.UntaggedFenceKeepsClosing | src/video_to_website/tools/code_tools.py:64-69 | a reply fenced as "```\n…\n```" without a language tag keeps its closing fence: the tag test fails, and the first-occurrence replace removes the opening fence instead. The same holds for the CSS (129-134) and JavaScript (189-196) generators |
| CodeTools.OpeningFenceRemoved | src/video_to_website/tools/code_tools.py:64-69 | a bare opening fence followed by a newline, in a reply that ends with a fence, is the only part removed before the strip |
| CodeTools.UnfencedReplyStripped | src/video_to_website/tools/code_tools.py:64-69 | a reply with no fence at all is only stripped |
| CodeTools.CleanIdempotentWithoutFences | src/video_to_website/tools/code_tools.py:64-69 | without fences, cleaning twice is cleaning once |
| VideoTools.ConvertSameShape | src/video_to_website/tools/video_tools.py:96-110 | conversion keeps the same keys in the same order, lists of the same length and order, and leaves unchanged |
| VideoTools.SameShapeUnique | src/video_to_website/tools/video_tools.py:96-110 | only one plain value has the structure of a given parser value, so conversion is determined by structure |
| VideoTools.ConvertEmbed | src/video_to_website/tools/video_tools.py:105-110 | a value with no attributed containers converts to itself |
| VideoTools.Load | src/video_to_website/tools/video_tools.py:126-130 | with `dirtyjson` a parsed value is converted (and has its structure), and a parse error passes through; otherwise `json.loads` is used as it is |
| VideoTools.StripJsonFences | src/video_to_website/tools/video_tools.py:115-122 | the cleaned text is stripped and never longer than the reply |
| VideoTools.FencedJsonCleaned | src/video_to_website/tools/video_tools.py:115-122 | a reply "```json<body>```", with any whitespace around it, cleans to the stripped body |
| VideoTools.BareJsonKept | src/video_to_website/tools/video_tools.py:115-122 | a stripped reply with no fence at either end reaches the parser unchanged |
| VideoTools.BraceSlice | src/video_to_website/tools/video_tools.py:134-137 | there is no retry text exactly when the text has no "{". The slice starts at the first "{", with no "{" before it. It is empty exactly when no "}" comes at or after that "{"; otherwise it runs through the last "}" |
| VideoTools.BraceSliceAroundObject | src/video_to_website/tools/video_tools.py:134-137 | for prose without "{" before an object and prose without "}" after it, the retry text is exactly the object, braces included |
| VideoTools.Wrap | src/video_to_website/tools/video_tools.py:149-156 | a list comes back as `{"items": list}`, a dict as it is, and any other value as `{"content": value}` |
| VideoTools.ParseJsonResponse | src/video_to_website/tools/video_tools.py:112-156 | a successful first parse is wrapped. After a failed first parse the call raises the first error or returns the wrapped result of the brace-slice retry |
| VideoTools.NoBraceRaises | src/video_to_website/tools/video_tools.py:131-147 | with no "{" a failed first parse raises its own error |
| VideoTools.BraceRetryRescues | src/video_to_website/tools/video_tools.py:133-142 | a retry that parses to a non-null value gives that value, wrapped |
| VideoTools.UnwrapFirstItem | src/video_to_website/tools/video_tools.py:218-221 | the result is either the dict itself or the first list item, and the latter only when that item is a dict holding the marker key |
| VideoTools.UnwrapWrappedList | src/video_to_website/tools/video_tools.py:218-221 | a list whose first element holds `design_tokens` (or `page_content`) becomes that element |
| VideoTools.ListWithoutMarkerStaysWrapped | src/video_to_website/tools/video_tools.py:218-221 | an empty list, or one whose first element lacks the marker, stays under "items" |
| VideoTools.AnalyzeVideo | src/video_to_website/tools/video_tools.py:158-330 | an empty path gives "Video path is required" before anything else. The status is "success" exactly when the call gets as far as the model's reply; any earlier stop is an error that leaves the state alone. With a context a completed call stores its results |
| VideoTools.UnparseableReplyIsSuccess | src/video_to_website/tools/video_tools.py:216-226 | a reply that cannot be parsed still gives status "success", carrying the raw text and the error |
| VideoTools.VideoStateKeys | src/video_to_website/tools/video_tools.py:228-231 | a completed call sets the results key, plus `design_tokens` for the frame analysis, and keeps every other key |
| ValidationTools.AccessibilityScore | src/video_to_website/tools/validation_tools.py:167-170 | the score lies in 0..100; it is 100 exactly when there is no violation and 0 exactly from 20 violations on |
| ValidationTools.ScoreStep | src/video_to_website/tools/validation_tools.py:167-170 | each further violation costs five points until the score is 0 |
| ValidationTools.ScoreMonotone | src/video_to_website/tools/validation_tools.py:167-170 | more violations never give a higher score |
| ValidationTools.ValidateAccessibility | src/video_to_website/tools/validation_tools.py:120-177 | without Playwright or axe the reply is the warning with no issues, and a missing file gives "File not found: <path>". Otherwise there is one issue per violation in order, `violation_count` equals the number of violations, and the score follows it |
| ValidationTools.IssueNodesInOrder | src/video_to_website/tools/validation_tools.py:164 | an issue's `nodes` are its violation's node markup, in order |
| ValidationTools.Verdict | src/video_to_website/tools/validation_tools.py:256-259 | the verdict is "pass" exactly when no issue was found, and starts with "fail: " otherwise |
| ValidationTools.VerdictListsIssues | src/video_to_website/tools/validation_tools.py:256-258 | every issue found occurs in the failing verdict |
| ValidationTools.LayoutIssues | src/video_to_website/tools/validation_tools.py:216-254 | at most six issues are collected for one page |
| ValidationTools.PassIffGoodLayout | src/video_to_website/tools/validation_tools.py:218-259 | a page passes exactly when Tailwind is loaded, it scrolls sideways by at most one pixel, the header, main and footer that have a box have area, and the header is styled |
| ValidationTools.ScrollTolerance | src/video_to_website/tools/validation_tools.py:229-230 | horizontal scroll is reported exactly when `scrollWidth > clientWidth + 1` |
| ValidationTools.SweepUpTo | src/video_to_website/tools/validation_tools.py:212-261 | the loop completes exactly when every page loads; otherwise it stops with the error of the first page that raised |
| ValidationTools.CheckResponsiveLayout | src/video_to_website/tools/validation_tools.py:180-267 | without Playwright every width maps to "mock_pass". A failed launch gives its error, and a local file that does not exist gives "File not found: <url>". Otherwise the status is "success" exactly when every page loads and the browser then closes without error. A completed sweep whose browser closes cleanly is returned under "results"; an error from closing the browser becomes the reply's error. A page that fails to load ends the call with that page's error, and it is the first such page |
| ValidationTools.ReplyReportsWidth | src/video_to_website/tools/validation_tools.py:212-262 | when every page loads and the browser closes cleanly, the reply's results name exactly the widths tested. Each width carries its last page's verdict, which is "pass" exactly when that page's layout is good |
| ValidationTools.SweepTabulates | src/video_to_website/tools/validation_tools.py:212-259 | the loop's results are the dict filled with each width's verdict under `str(width)`, in breakpoint order |
| ValidationTools.LastVerdictWins | src/video_to_website/tools/validation_tools.py:257-259 | a width tested twice keeps the verdict of its last test |
| ValidationTools.SweepKeys | src/video_to_website/tools/validation_tools.py:212-259 | the result keys are exactly the decimal texts of the widths tested |
| ValidationTools.MockAllPass | src/video_to_website/tools/validation_tools.py:197-198 | without Playwright the keys are exactly the widths' texts, each mapped to "mock_pass" |
| HtmlUtils.ValidateHtml | src/video_to_website/utils/html_utils.py:8-22 | the text is accepted exactly when it contains "<html>"; the empty text is rejected |
| HtmlUtils.AcceptsAnyWithTag | src/video_to_website/utils/html_utils.py:22 | any text around "<html>" is accepted |
| HtmlUtils.RejectsTagWithAttributes | src/video_to_website/utils/html_utils.py:22 | `<html lang="en"></html>` is rejected |
| ToolSequences.FixThenRead | src/video_to_website/tools/refinement_tools.py:29-90 | after a successful fix, reading the same name returns the fixed code, from the state for a well-known name and from the file otherwise |
| ToolSequences.SaveThenRead | src/video_to_website/tools/file_tools.py:66-71 | with a context, a saved well-known file reads back as saved |
| ToolSequences.SavedPageReadElsewhere | src/video_to_website/tools/refinement_tools.py:38-40 | any other plain name is saved under the session directory but read from `output/<name>`: the two paths differ |
| ToolSequences.GenerateThenRead | src/video_to_website/tools/code_tools.py:71-72 | what a generator stored is what `read_generated_code` returns for its file, whatever is on disk |
| ToolSequences.PlainSegmentPaths | src/video_to_website/tools/refinement_tools.py:38-40 | a plain name is read from `output/<name>` and saved as `<session dir>/<name>` |

## Left out

- The validate/refine loop: it is the agent framework's `LoopAgent`, with `max_iterations=5`, and no tool ends it, so there is no loop to model.
- Agent wiring, prompts, plugins, the Streamlit UI and the example scripts: none of them holds tool logic.
- Language-model calls, file uploads with their polling, and YouTube downloads are network I/O. Their outcomes are inputs: `ModelCall` is a reply or an exception, and `downloadError` is an optional error message.
- `response.text` being `None` is not modelled. The reply text is always a string.
- `_is_youtube_url` is a regular expression match and is taken as the input flag `isYoutube`.
- The JSON parsers are inputs. `json.loads` and `dirtyjson.loads` are function parameters; their own grammar is not modelled.
- The `end != -1` guard in `_parse_json_response` is always true. It is modelled, but has no branch of its own.
- `extract_and_save_images_from_video` is left out: its OpenCV histogram and blur thresholds are floating-point image processing.
- Removing the temporary downloaded video in `finally` is left out. It changes nothing a caller sees, and its errors are swallowed.
- The `sample_rate` argument of `analyze_video_frames` is left out. The code never uses it.
- `launch_browser_preview`, `capture_screenshot` and `measure_performance` are browser I/O, and the last one returns constants.
- Json.Value: has no float constructor, so a float in a model's reply cannot be expressed. Two behaviours are therefore not modelled. A `"passed": 0.0` is false in Python and selects the failure message in `check_validation_status`. A float `refinement_count` is incremented by Python in `apply_code_fixes`, but the model can neither store one nor pass one to `Increment`.
- Playwright and axe-core findings are inputs. These include the violations, scroll widths, bounding boxes, background colour and `bg-` class. Bounding boxes are integers rather than floats.
- ValidationTools.CheckResponsiveLayout: leaving `async with async_playwright()` after the early "File not found" return can itself raise, which would turn the reply into an error; the model consults the browser-close error only after a completed sweep. An error from `page.close()` is part of that page's `Crashed` observation.
- ValidationTools.ValidateAccessibility takes violations as typed records. A violation dict that lacks a key, and so raises `KeyError`, is not modelled.
- Paths are relative sequences of segments:
  - An absolute path, or a session id starting with '/', is treated as relative.
  - ".." stays a literal segment, as `pathlib` keeps it.
  - No OS normalisation or symlink resolution is modelled.
- OS error wording is abstracted to the failing path (`OsError`). Interpreter error text, such as `TypeError` on a non-numeric counter or `AttributeError` on a non-list registry, becomes `PythonError`.
- Permission errors, disk-full errors and concurrent writers are not modelled. The only file errors are the structural ones (a file in the way, a missing parent, a directory as target).
- `str.strip` and `str.lower` are ASCII only: the whitespace set is the ten ASCII characters Python treats as space. Non-ASCII case mapping and whitespace are not modelled.
- `str(e)` of an exception is the message text carried by the input.
- CodeTools.CleanCode: its own contract states only that the result is stripped and no longer than the reply. The exact clean-up is stated case by case by FencedReplyCleaned, EarlierFenceKeepsClosing, FenceBeforeNewlineKept, UntaggedFenceKeepsClosing, UnfencedReplyStripped and LeadingTagRemoved.
- VideoTools.StripJsonFences: its own contract states only that the result is stripped and no longer than the reply. The exact clean-up is stated by FencedJsonCleaned and BareJsonKept.
- ValidationTools.LayoutIssues: its own contract only bounds the number of issues. Which issues appear is stated by PassIffGoodLayout and ScrollTolerance.
- Logging is left out.
- The session state is a map, so key order in the state is not tracked. The key order of returned dicts is tracked.
