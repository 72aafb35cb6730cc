/** `check_validation_status`: the rule deciding whether the validate/refine
    loop may stop, read from the validator's JSON report. */
module LoopTools {
  import opened Common
  import opened Json
  import opened Session

  /** The dict the tool returns. */
  datatype StatusReply = StatusReply(status: string, validationPassed: Value, message: string)

  /** The Python exceptions the issue scan can raise; nothing catches them. */
  datatype PyException =
    | TypeError       // the issues value is not iterable
    | AttributeError  // an iterated issue has no `.get`

  datatype StatusOutcome =
    | Decided(reply: StatusReply, ctx: Option<Context>)
    | Raised(exception: PyException)

  const PassedMessage := "Validation passed"
  const FailedMessage := "Validation failed, refinement needed"

  /** `validation_results.get("passed", False)`. */
  function PassedField(results: seq<Field>): Value {
    Get(results, "passed", Bool(false))
  }

  /** `validation_results.get("issues", [])`. */
  function IssuesField(results: seq<Field>): Value {
    Get(results, "issues", Arr([]))
  }

  /** What `for i in v` yields: list items, dict keys, or the one-character
      strings of a string; `None` when the value is not iterable. */
  function Iterate(v: Value): Option<seq<Value>> {
    match v
    case Arr(items) => Some(items)
    case Obj(fields) => Some(seq(|fields|, k requires 0 <= k < |fields| => Str(fields[k].key)))
    case Str(s) => Some(seq(|s|, k requires 0 <= k < |s| => Str([s[k]])))
    case _ => None
  }

  /** `i.get("severity") == "error"`: exact string equality, nothing else. */
  predicate IsCritical(issue: Value) {
    issue.Obj? && Lookup(issue.fields, "severity") == Some(Str("error"))
  }

  predicate AllDicts(items: seq<Value>) {
    forall k :: 0 <= k < |items| ==> items[k].Obj?
  }

  /** `[i for i in issues if i.get("severity") == "error"]` reduced to
      whether it is non-empty; `None` when some item has no `.get`. */
  function CriticalScan(items: seq<Value>): (r: Option<bool>)
    ensures r.None? <==> !AllDicts(items)
    ensures r == Some(true) <==> AllDicts(items) && exists k :: 0 <= k < |items| && IsCritical(items[k])
  {
    if |items| == 0 then Some(false)
    else if !items[0].Obj? then None
    else
      match CriticalScan(items[1..])
      case None => None
      case Some(c) => Some(IsCritical(items[0]) || c)
  }

  /** The reply for a final verdict, and the verdict stored in the context. */
  function Finish(passed: Value, ctx: Option<Context>): StatusOutcome {
    var message := if Truthy(passed) then PassedMessage else FailedMessage;
    var ctx' := match ctx
      case Some(c) => Some(WithState(c, c.state["validation_passed" := passed]))
      case None => None;
    Decided(StatusReply("success", passed, message), ctx')
  }

  /** `check_validation_status(validation_results, tool_context)`. */
  function CheckValidationStatus(results: seq<Field>, ctx: Option<Context>): (r: StatusOutcome)
    // a truthy `passed` wins outright and is returned as given
    ensures Truthy(PassedField(results)) ==>
      r.Decided? && r.reply.validationPassed == PassedField(results)
    // otherwise the verdict is decided by the issues alone
    ensures !Truthy(PassedField(results)) && r.Decided? && Iterate(IssuesField(results)).Some? ==>
      (Truthy(r.reply.validationPassed) <==>
        forall k :: 0 <= k < |Iterate(IssuesField(results)).value| ==>
          !IsCritical(Iterate(IssuesField(results)).value[k]))
    ensures !Truthy(PassedField(results)) && r.Decided? && Truthy(r.reply.validationPassed) ==>
      r.reply.validationPassed == Bool(true)
    ensures !Truthy(PassedField(results)) && r.Decided? && !Truthy(r.reply.validationPassed) ==>
      r.reply.validationPassed == PassedField(results)
    // the scan raises on a non-iterable issues value or a non-dict issue
    ensures r.Raised? <==>
      !Truthy(PassedField(results)) &&
      (Iterate(IssuesField(results)).None? || !AllDicts(Iterate(IssuesField(results)).value))
    ensures r.Decided? ==> r.reply.status == "success"
    ensures r.Decided? ==> (r.reply.message == PassedMessage <==> Truthy(r.reply.validationPassed))
    ensures r.Decided? ==> (ctx.None? <==> r.ctx.None?)
    ensures r.Decided? && ctx.Some? ==>
      r.ctx == Some(ctx.value.(state := ctx.value.state["validation_passed" := r.reply.validationPassed]))
  {
    var passed := PassedField(results);
    if Truthy(passed) then Finish(passed, ctx)
    else
      match Iterate(IssuesField(results))
      case None => Raised(TypeError)
      case Some(items) =>
        match CriticalScan(items)
        case None => Raised(AttributeError)
        case Some(critical) => Finish(if critical then passed else Bool(true), ctx)
  }

  // ---------------------------------------------------------------- lemmas

  /** A missing `passed` key behaves exactly like `passed = false`. */
  lemma MissingPassedIsFalse(results: seq<Field>, ctx: Option<Context>)
    requires "passed" !in Keys(results)
    ensures CheckValidationStatus(results, ctx)
         == CheckValidationStatus(Put(results, "passed", Bool(false)), ctx)
  {
    var results' := Put(results, "passed", Bool(false));
    assert PassedField(results') == PassedField(results);
    assert IssuesField(results') == IssuesField(results);
  }

  /** With `passed` false, an absent or empty issues list lets the loop stop. */
  lemma NoIssuesPasses(results: seq<Field>, ctx: Option<Context>)
    requires !Truthy(PassedField(results))
    requires "issues" !in Keys(results) || Lookup(results, "issues") == Some(Arr([]))
    ensures CheckValidationStatus(results, ctx).Decided?
    ensures CheckValidationStatus(results, ctx).reply.validationPassed == Bool(true)
    ensures CheckValidationStatus(results, ctx).reply.message == PassedMessage
  {
  }

  /** With `passed` false, a list of issues none of which has severity
      "error" (warnings only, say) lets the loop stop. */
  lemma WarningsOnlyPasses(results: seq<Field>, issues: seq<Value>, ctx: Option<Context>)
    requires !Truthy(PassedField(results))
    requires Lookup(results, "issues") == Some(Arr(issues))
    requires AllDicts(issues)
    requires forall k :: 0 <= k < |issues| ==> Lookup(issues[k].fields, "severity") != Some(Str("error"))
    ensures CheckValidationStatus(results, ctx).Decided?
    ensures CheckValidationStatus(results, ctx).reply.validationPassed == Bool(true)
  {
  }

  /** With `passed` false, one issue of severity "error" keeps the loop going. */
  lemma AnyErrorBlocks(results: seq<Field>, issues: seq<Value>, k: nat, ctx: Option<Context>)
    requires !Truthy(PassedField(results))
    requires Lookup(results, "issues") == Some(Arr(issues))
    requires AllDicts(issues) && k < |issues| && IsCritical(issues[k])
    ensures CheckValidationStatus(results, ctx).Decided?
    ensures !Truthy(CheckValidationStatus(results, ctx).reply.validationPassed)
    ensures CheckValidationStatus(results, ctx).reply.message == FailedMessage
  {
    assert CriticalScan(issues) == Some(true);
  }

  /** Severity matching is exact: "Error", "critical" and an absent severity
      are not critical. */
  lemma SeverityIsExact()
    ensures !IsCritical(Obj([Field("severity", Str("Error"))]))
    ensures !IsCritical(Obj([Field("severity", Str("critical"))]))
    ensures !IsCritical(Obj([Field("description", Str("missing alt text"))]))
    ensures IsCritical(Obj([Field("severity", Str("error"))]))
  {
    assert "Error" != "error" by { assert "Error"[0] != "error"[0]; }
    assert "critical" != "error";
    assert Keys([Field("description", Str("missing alt text"))]) == ["description"];
  }

  /** With a context only `validation_passed` changes; without one nothing does. */
  lemma OnlyVerdictStored(results: seq<Field>, ctx: Option<Context>)
    requires CheckValidationStatus(results, ctx).Decided?
    ensures var r := CheckValidationStatus(results, ctx);
      && (ctx.Some? ==>
          && r.ctx.value.sessionId == ctx.value.sessionId
          && r.ctx.value.state["validation_passed"] == r.reply.validationPassed
          && r.ctx.value.state.Keys == ctx.value.state.Keys + {"validation_passed"}
          && forall k :: k in ctx.value.state && k != "validation_passed" ==>
               r.ctx.value.state[k] == ctx.value.state[k])
      && (ctx.None? ==> r.ctx.None?)
  {
  }

  // ------------------------------------------------ the report as a typed record

  /** One validator issue (the `ValidationIssue` schema, severity optional). */
  datatype Issue = Issue(severity: Option<string>, description: string, location: Option<string>)

  /** A validator report: both keys may be missing from the JSON. */
  datatype Report = Report(passed: Option<bool>, issues: Option<seq<Issue>>)

  /** The exit rule stated on the typed record: stop when the report says it
      passed, or when no issue has severity "error". */
  predicate Decide(report: Report) {
    var issues := report.issues.GetOr([]);
    report.passed == Some(true) || forall k :: 0 <= k < |issues| ==> issues[k].severity != Some("error")
  }

  function EncodeIssue(issue: Issue): Value {
    Obj(
      (if issue.severity.Some? then [Field("severity", Str(issue.severity.value))] else [])
      + [Field("description", Str(issue.description))]
      + (if issue.location.Some? then [Field("location", Str(issue.location.value))] else []))
  }

  function EncodeIssues(issues: seq<Issue>): (vs: seq<Value>)
    ensures |vs| == |issues|
    ensures forall k :: 0 <= k < |issues| ==> vs[k] == EncodeIssue(issues[k])
  {
    seq(|issues|, k requires 0 <= k < |issues| => EncodeIssue(issues[k]))
  }

  /** The JSON the validator writes for a typed report. */
  function EncodeReport(report: Report): seq<Field> {
    (if report.passed.Some? then [Field("passed", Bool(report.passed.value))] else [])
    + (if report.issues.Some? then [Field("issues", Arr(EncodeIssues(report.issues.value)))] else [])
  }

  lemma EncodedIssueCritical(issue: Issue)
    ensures IsCritical(EncodeIssue(issue)) <==> issue.severity == Some("error")
  {
    var fields := EncodeIssue(issue).fields;
    if issue.severity.None? {
      assert "description" != "severity";
      assert "location" != "severity" by { assert "location"[0] != "severity"[0]; }
      assert "severity" !in Keys(fields);
    }
  }

  /** On any well-typed report the tool returns exactly the typed decision. */
  lemma CheckAgreesWithDecide(report: Report, ctx: Option<Context>)
    ensures CheckValidationStatus(EncodeReport(report), ctx).Decided?
    ensures CheckValidationStatus(EncodeReport(report), ctx).reply.validationPassed == Bool(Decide(report))
  {
    var issues := report.issues.GetOr([]);
    var items := EncodeIssues(issues);
    EncodedFields(report);
    forall k | 0 <= k < |issues| ensures IsCritical(items[k]) <==> issues[k].severity == Some("error") {
      EncodedIssueCritical(issues[k]);
    }
  }

  /** The encoded report gives back its verdict and its issue list. */
  lemma EncodedFields(report: Report)
    ensures PassedField(EncodeReport(report)) == Bool(report.passed == Some(true))
    ensures IssuesField(EncodeReport(report)) == Arr(EncodeIssues(report.issues.GetOr([])))
  {
    var results := EncodeReport(report);
    assert "issues" != "passed";
    assert PassedField(results) == Bool(report.passed == Some(true));
    var items := EncodeIssues(report.issues.GetOr([]));
    if report.issues.Some? {
      assert Lookup(results, "issues") == Some(Arr(items));
    } else {
      assert items == [];
      assert "issues" !in Keys(results);
    }
  }
}
