/** The aggregation in `validate_accessibility` and `check_responsive_layout`:
    what the tools make of the browser's and axe-core's findings, which are
    inputs here. */
module ValidationTools {
  import opened Common
  import opened Text
  import opened Json
  import opened Session

  // ------------------------------------------------------------ accessibility

  /** `max(0, 100 - 5 * count)`. */
  function AccessibilityScore(count: nat): (score: nat)
    ensures score <= 100
    ensures score == 100 <==> count == 0
    ensures score == 0 <==> count >= 20
  {
    if 100 - 5 * count < 0 then 0 else 100 - 5 * count
  }

  /** One node of an axe-core violation; only its markup is read. */
  datatype Node = Node(html: Value)

  /** One axe-core violation, as the tool reads it. */
  datatype Violation = Violation(id: Value, description: Value, impact: Value, help: Value, nodes: seq<Node>)

  /** What the axe-core run produced: its result dict's `violations` (absent
      when the dict has no such key), or the text of the exception raised. */
  datatype AxeRun = AxeOk(violations: Option<seq<Violation>>) | AxeFailed(message: string)

  datatype AxeEnv = AxeEnv(toolsAvailable: bool, fileExists: bool, run: AxeRun)

  /** The markup of the nodes, in order. */
  function NodeHtml(nodes: seq<Node>): (hs: seq<Value>)
    ensures |hs| == |nodes|
    ensures forall k :: 0 <= k < |nodes| ==> hs[k] == nodes[k].html
  {
    seq(|nodes|, k requires 0 <= k < |nodes| => nodes[k].html)
  }

  /** The issue reported for one violation. */
  function IssueOf(v: Violation): Value {
    Obj([Field("id", v.id), Field("description", v.description), Field("impact", v.impact),
         Field("help", v.help), Field("nodes", Arr(NodeHtml(v.nodes)))])
  }

  function IssuesOf(vs: seq<Violation>): (issues: seq<Value>)
    ensures |issues| == |vs|
    ensures forall k :: 0 <= k < |vs| ==> issues[k] == IssueOf(vs[k])
  {
    seq(|vs|, k requires 0 <= k < |vs| => IssueOf(vs[k]))
  }

  /** `validate_accessibility(html_path, tool_context)`. */
  function ValidateAccessibility(htmlPath: string, env: AxeEnv): (r: seq<Field>)
    ensures !env.toolsAvailable ==>
      r == [Field("status", Str("warning")), Field("message", Str("Validation tools missing")), Field("issues", Arr([]))]
    ensures env.toolsAvailable && !env.fileExists ==> r == ErrorDict("File not found: " + htmlPath)
    ensures env.toolsAvailable && env.fileExists && env.run.AxeFailed? ==> r == ErrorDict(env.run.message)
    ensures env.toolsAvailable && env.fileExists && env.run.AxeOk? ==>
      var vs := env.run.violations.GetOr([]);
      && Lookup(r, "status") == Some(Str("success"))
      && Lookup(r, "score") == Some(Num(AccessibilityScore(|vs|)))
      && Lookup(r, "violation_count") == Some(Num(|vs|))
      && Lookup(r, "issues").Some? && Lookup(r, "issues").value.Arr?
      && |Lookup(r, "issues").value.items| == |vs|
      && forall k :: 0 <= k < |vs| ==> Lookup(r, "issues").value.items[k] == IssueOf(vs[k])
  {
    if !env.toolsAvailable then
      [Field("status", Str("warning")), Field("message", Str("Validation tools missing")), Field("issues", Arr([]))]
    else if !env.fileExists then ErrorDict("File not found: " + htmlPath)
    else
      match env.run
      case AxeFailed(m) => ErrorDict(m)
      case AxeOk(violations) =>
        var vs := violations.GetOr([]);
        var fields := [Field("status", Str("success")), Field("score", Num(AccessibilityScore(|vs|))),
                       Field("issues", Arr(IssuesOf(vs))), Field("violation_count", Num(|vs|))];
        SuccessLookups(fields);
        fields
  }

  lemma SuccessLookups(fields: seq<Field>)
    requires |fields| == 4
    requires fields[0].key == "status" && fields[1].key == "score"
    requires fields[2].key == "issues" && fields[3].key == "violation_count"
    ensures forall i :: 0 <= i < 4 ==> Lookup(fields, fields[i].key) == Some(fields[i].val)
  {
    var ks := Keys(fields);
    assert ks[0][1] == 't' && ks[1][1] == 'c' && ks[2][0] == 'i' && ks[3][0] == 'v';
    forall i | 0 <= i < 4 ensures Lookup(fields, fields[i].key) == Some(fields[i].val) {
      LookupAt(fields, i);
    }
  }

  /** Every issue lists its violation's node markup, in order. */
  lemma IssueNodesInOrder(v: Violation)
    ensures Lookup(IssueOf(v).fields, "nodes") == Some(Arr(NodeHtml(v.nodes)))
  {
    var fields := IssueOf(v).fields;
    var ks := Keys(fields);
    assert ks[0][0] == 'i' && ks[1][0] == 'd' && ks[2][0] == 'i' && ks[2][1] == 'm' && ks[3][0] == 'h';
    assert ks[4] == "nodes";
    LookupAt(fields, 4);
  }

  /** Each further violation costs five points until the score reaches 0. */
  lemma ScoreStep(count: nat)
    ensures AccessibilityScore(count + 1) == if count >= 20 then 0 else AccessibilityScore(count) - 5
  {
  }

  /** More violations never raise the score. */
  lemma ScoreMonotone(a: nat, b: nat)
    requires a <= b
    ensures AccessibilityScore(b) <= AccessibilityScore(a)
  {
  }

  // ----------------------------------------------------------- responsiveness

  /** What the browser reports about one landmark: absent from the page,
      present without a bounding box, or its box with the header checks. */
  datatype Region =
    | Absent
    | NoBox
    | Box(width: int, height: int, backgroundColor: string, hasBgClass: bool)

  /** The browser's findings for one page at one viewport width. */
  datatype Probe = Probe(tailwindLoaded: bool, scrollWidth: int, clientWidth: int,
                         header: Region, main: Region, footer: Region)

  /** One page, from `new_page` through `page.close()`, either yields its
      findings or raises somewhere along the way. */
  datatype Observation = Observed(probe: Probe) | Crashed(message: string)

  /** The box has no area to show. */
  predicate ZeroSize(r: Region) {
    r.Box? && (r.width == 0 || r.height == 0)
  }

  /** A header with a transparent computed background and no `bg-` class. */
  predicate Unstyled(r: Region) {
    r.Box? && (r.backgroundColor == "rgba(0, 0, 0, 0)" || r.backgroundColor == "transparent") && !r.hasBgClass
  }

  /** The issues found on one page, in the order the checks run. */
  function LayoutIssues(p: Probe): (issues: seq<string>)
    ensures |issues| <= 6
  {
    (if !p.tailwindLoaded then ["Tailwind CSS CDN script missing"] else [])
    + (if p.scrollWidth > p.clientWidth + 1 then ["Horizontal scroll detected"] else [])
    + (if ZeroSize(p.header) then ["Element <header> has zero size"] else [])
    + (if Unstyled(p.header) then ["Header might be unstyled (transparent background)"] else [])
    + (if ZeroSize(p.main) then ["Element <main> has zero size"] else [])
    + (if ZeroSize(p.footer) then ["Element <footer> has zero size"] else [])
  }

  /** The verdict for one breakpoint. */
  function Verdict(issues: seq<string>): (v: string)
    ensures v == "pass" <==> |issues| == 0
    ensures |issues| > 0 ==> StartsWith(v, "fail: ")
  {
    if |issues| > 0 then
      assert ("fail: " + Join(issues, ", "))[0] != "pass"[0];
      "fail: " + Join(issues, ", ")
    else "pass"
  }

  /** A failing verdict names every issue found. */
  lemma VerdictListsIssues(issues: seq<string>, i: nat)
    requires i < |issues|
    ensures Contains(Verdict(issues), issues[i])
  {
    JoinContainsPart(issues, ", ", i);
    ContainsInTail("fail: ", Join(issues, ", "), issues[i]);
  }

  /** A page passes exactly when Tailwind is loaded, it does not scroll
      sideways by more than one pixel, and every landmark present has area,
      the header also some styling. */
  predicate GoodLayout(p: Probe) {
    && p.tailwindLoaded
    && p.scrollWidth <= p.clientWidth + 1
    && !ZeroSize(p.header) && !Unstyled(p.header)
    && !ZeroSize(p.main) && !ZeroSize(p.footer)
  }

  lemma PassIffGoodLayout(p: Probe)
    ensures Verdict(LayoutIssues(p)) == "pass" <==> GoodLayout(p)
  {
  }

  /** Scrolling is tolerated up to one pixel. */
  lemma ScrollTolerance(p: Probe)
    ensures ("Horizontal scroll detected" in LayoutIssues(p)) <==> p.scrollWidth > p.clientWidth + 1
  {
    var s := "Horizontal scroll detected";
    assert s != "Tailwind CSS CDN script missing";
    assert s[0] != "Element <header> has zero size"[0];
    assert |"Header might be unstyled (transparent background)"| != |s|;
    assert s[0] != "Element <main> has zero size"[0];
    assert s[0] != "Element <footer> has zero size"[0];
  }

  /** The results of the first `n` breakpoints, or the first page load that
      raised. */
  datatype Sweep = Swept(results: seq<Field>) | SweepCrashed(message: string)

  /** The loop over the breakpoints: each verdict is written under the
      width's decimal text, so a repeated width overwrites in place. */
  function SweepUpTo(bps: seq<int>, observe: (nat, int) -> Observation, n: nat): (r: Sweep)
    requires n <= |bps|
    ensures r.Swept? <==> forall j :: 0 <= j < n ==> observe(j, bps[j]).Observed?
    ensures r.SweepCrashed? ==>
      exists j :: 0 <= j < n && observe(j, bps[j]) == Crashed(r.message)
        && forall i :: 0 <= i < j ==> observe(i, bps[i]).Observed?
  {
    if n == 0 then Swept([])
    else
      match SweepUpTo(bps, observe, n - 1)
      case SweepCrashed(m) => SweepCrashed(m)
      case Swept(acc) =>
        match observe(n - 1, bps[n - 1])
        case Crashed(m) =>
          assert forall i :: 0 <= i < n - 1 ==> observe(i, bps[i]).Observed?;
          SweepCrashed(m)
        case Observed(p) =>
          Swept(Put(acc, IntToString(bps[n - 1]), Str(Verdict(LayoutIssues(p)))))
  }

  /** The decimal texts of the widths, in order: `str(width)`. */
  function WidthKeys(ws: seq<int>): (ks: seq<string>)
    ensures |ks| == |ws|
    ensures forall i :: 0 <= i < |ws| ==> ks[i] == IntToString(ws[i])
  {
    seq(|ws|, i requires 0 <= i < |ws| => IntToString(ws[i]))
  }

  /** `{str(bp): "mock_pass" for bp in breakpoints}`. */
  function MockResults(bps: seq<int>): seq<Field> {
    Tabulate(WidthKeys(bps), seq(|bps|, _ => Str("mock_pass")))
  }

  /** What the browser session does: whether Playwright is installed, the
      error launching Chromium raises if any, whether a local target exists,
      what each page shows, and the error closing the browser raises, if
      any, once every page has been checked. */
  datatype BrowserEnv = BrowserEnv(
    playwrightAvailable: bool,
    launchError: Option<string>,
    fileExists: bool,
    observe: (nat, int) -> Observation,
    closeError: Option<string>)

  /** `check_responsive_layout(url, breakpoints, tool_context)`. */
  function CheckResponsiveLayout(url: string, bps: seq<int>, env: BrowserEnv): (r: seq<Field>)
    ensures !env.playwrightAvailable ==>
      r == [Field("status", Str("success")), Field("results", Obj(MockResults(bps)))]
    ensures env.playwrightAvailable && env.launchError.Some? ==> r == ErrorDict(env.launchError.value)
    ensures env.playwrightAvailable && env.launchError.None? && !StartsWith(url, "http") && !env.fileExists ==>
      r == ErrorDict("File not found: " + url)
    ensures env.playwrightAvailable && env.launchError.None? && (StartsWith(url, "http") || env.fileExists) ==>
      (Lookup(r, "status") == Some(Str("success")) <==>
        (forall j :: 0 <= j < |bps| ==> env.observe(j, bps[j]).Observed?) && env.closeError.None?)
    // a page that fails to load ends the sweep with its own message
    ensures env.playwrightAvailable && env.launchError.None? && (StartsWith(url, "http") || env.fileExists) &&
            SweepUpTo(bps, env.observe, |bps|).SweepCrashed? ==>
      && r == ErrorDict(SweepUpTo(bps, env.observe, |bps|).message)
      && exists j :: 0 <= j < |bps| && env.observe(j, bps[j]) == Crashed(SweepUpTo(bps, env.observe, |bps|).message)
           && forall i :: 0 <= i < j ==> env.observe(i, bps[i]).Observed?
    // a completed sweep is reported under "results", unless closing the browser raises
    ensures env.playwrightAvailable && env.launchError.None? && (StartsWith(url, "http") || env.fileExists) &&
            SweepUpTo(bps, env.observe, |bps|).Swept? ==>
      if env.closeError.Some? then r == ErrorDict(env.closeError.value)
      else Lookup(r, "results") == Some(Obj(SweepUpTo(bps, env.observe, |bps|).results))
  {
    if !env.playwrightAvailable then
      [Field("status", Str("success")), Field("results", Obj(MockResults(bps)))]
    else if env.launchError.Some? then ErrorDict(env.launchError.value)
    else if !StartsWith(url, "http") && !env.fileExists then ErrorDict("File not found: " + url)
    else
      match SweepUpTo(bps, env.observe, |bps|)
      case SweepCrashed(m) => ErrorDict(m)
      case Swept(results) =>
        // `browser.close()` and leaving `async with` run inside the `try`
        if env.closeError.Some? then ErrorDict(env.closeError.value)
        else
          assert "results"[0] != "status"[0];
          [Field("status", Str("success")), Field("results", Obj(results))]
  }

  // ---------------------------------------------------------------- lemmas

  /** The verdicts of the first `n` pages, all of which loaded. */
  function Verdicts(bps: seq<int>, observe: (nat, int) -> Observation, n: nat): (vs: seq<Value>)
    requires n <= |bps|
    requires forall j :: 0 <= j < n ==> observe(j, bps[j]).Observed?
    ensures |vs| == n
  {
    seq(n, j requires 0 <= j < n => Str(Verdict(LayoutIssues(observe(j, bps[j]).probe))))
  }

  /** The loop fills the results as the dict of each width's verdict. */
  lemma {:induction false} SweepTabulates(bps: seq<int>, observe: (nat, int) -> Observation, n: nat)
    requires n <= |bps|
    requires SweepUpTo(bps, observe, n).Swept?
    ensures SweepUpTo(bps, observe, n).results == Tabulate(WidthKeys(bps[..n]), Verdicts(bps, observe, n))
  {
    if n > 0 {
      SweepStep(bps, observe, n);
      SweepTabulates(bps, observe, n - 1);
      SweepColumns(bps, observe, n);
    }
  }

  /** One more observed width puts its verdict into the results so far. */
  lemma SweepStep(bps: seq<int>, observe: (nat, int) -> Observation, n: nat)
    requires 0 < n <= |bps|
    requires SweepUpTo(bps, observe, n).Swept?
    ensures SweepUpTo(bps, observe, n - 1).Swept? && observe(n - 1, bps[n - 1]).Observed?
    ensures SweepUpTo(bps, observe, n).results ==
      Put(SweepUpTo(bps, observe, n - 1).results, IntToString(bps[n - 1]),
          Str(Verdict(LayoutIssues(observe(n - 1, bps[n - 1]).probe))))
  {
  }

  /** The key and value columns for `n` widths extend those for `n - 1`. */
  lemma SweepColumns(bps: seq<int>, observe: (nat, int) -> Observation, n: nat)
    requires 0 < n <= |bps|
    requires forall j :: 0 <= j < n ==> observe(j, bps[j]).Observed?
    ensures Tabulate(WidthKeys(bps[..n]), Verdicts(bps, observe, n)) ==
      Put(Tabulate(WidthKeys(bps[..n - 1]), Verdicts(bps, observe, n - 1)), IntToString(bps[n - 1]),
          Str(Verdict(LayoutIssues(observe(n - 1, bps[n - 1]).probe))))
  {
    var ks := WidthKeys(bps[..n]);
    var vs := Verdicts(bps, observe, n);
    assert ks[..n - 1] == WidthKeys(bps[..n - 1]);
    assert vs[..n - 1] == Verdicts(bps, observe, n - 1);
  }

  /** The last page at a width decides that width's verdict. */
  lemma LastVerdictWins(bps: seq<int>, observe: (nat, int) -> Observation, j: nat)
    requires j < |bps|
    requires SweepUpTo(bps, observe, |bps|).Swept?
    requires forall k :: j < k < |bps| ==> bps[k] != bps[j]
    ensures observe(j, bps[j]).Observed?
    ensures Lookup(SweepUpTo(bps, observe, |bps|).results, IntToString(bps[j]))
         == Some(Str(Verdict(LayoutIssues(observe(j, bps[j]).probe))))
  {
    var n := |bps|;
    assert bps[..n] == bps;
    SweepTabulates(bps, observe, n);
    var ks := WidthKeys(bps);
    forall i | j < i < n ensures ks[i] != ks[j] {
      IntToStringInjective(bps[i], bps[j]);
    }
    TabulateLastWins(ks, Verdicts(bps, observe, n), j);
  }

  /** The result keys are exactly the widths tested. */
  lemma SweepKeys(bps: seq<int>, observe: (nat, int) -> Observation)
    requires SweepUpTo(bps, observe, |bps|).Swept?
    ensures forall k :: k in Keys(SweepUpTo(bps, observe, |bps|).results) <==> k in WidthKeys(bps)
  {
    assert bps[..|bps|] == bps;
    SweepTabulates(bps, observe, |bps|);
    TabulateKeys(WidthKeys(bps), Verdicts(bps, observe, |bps|));
  }

  /** When every page loads and the browser closes cleanly, the reply's
      "results" name exactly the widths tested, and each width carries the verdict of its last page: "pass"
      exactly when that page's layout is good. */
  lemma ReplyReportsWidth(url: string, bps: seq<int>, env: BrowserEnv, j: nat)
    requires env.playwrightAvailable && env.launchError.None? && (StartsWith(url, "http") || env.fileExists)
    requires forall i :: 0 <= i < |bps| ==> env.observe(i, bps[i]).Observed?
    requires env.closeError.None?
    requires j < |bps|
    requires forall k :: j < k < |bps| ==> bps[k] != bps[j]
    ensures var r := CheckResponsiveLayout(url, bps, env);
      && Lookup(r, "status") == Some(Str("success"))
      && Lookup(r, "results").Some? && Lookup(r, "results").value.Obj?
      && (forall k :: k in Keys(Lookup(r, "results").value.fields) <==> k in WidthKeys(bps))
      && Lookup(Lookup(r, "results").value.fields, IntToString(bps[j]))
           == Some(Str(Verdict(LayoutIssues(env.observe(j, bps[j]).probe))))
      && ((Lookup(Lookup(r, "results").value.fields, IntToString(bps[j])) == Some(Str("pass")))
          <==> GoodLayout(env.observe(j, bps[j]).probe))
  {
    var sweep := SweepUpTo(bps, env.observe, |bps|);
    assert sweep.Swept?;
    LastVerdictWins(bps, env.observe, j);
    SweepKeys(bps, env.observe);
    PassIffGoodLayout(env.observe(j, bps[j]).probe);
  }

  /** Without Playwright every width tested, and nothing else, maps to
      "mock_pass". */
  lemma MockAllPass(bps: seq<int>)
    ensures forall k :: k in Keys(MockResults(bps)) <==> k in WidthKeys(bps)
    ensures forall j :: 0 <= j < |bps| ==> Lookup(MockResults(bps), IntToString(bps[j])) == Some(Str("mock_pass"))
  {
    var ks := WidthKeys(bps);
    var vs: seq<Value> := seq(|bps|, _ => Str("mock_pass"));
    TabulateKeys(ks, vs);
    forall j | 0 <= j < |bps|
      ensures Lookup(MockResults(bps), IntToString(bps[j])) == Some(Str("mock_pass"))
    {
      var last := LastIndexOf(ks, ks[j], j);
      TabulateLastWins(ks, vs, last);
    }
  }

  /** The last position holding the same key as position `j`. */
  function LastIndexOf(ks: seq<string>, k: string, j: nat): (last: nat)
    requires j < |ks| && ks[j] == k
    ensures j <= last < |ks| && ks[last] == k
    ensures forall i :: last < i < |ks| ==> ks[i] != k
  {
    if ks[|ks| - 1] == k then |ks| - 1 else LastIndexOf(ks[..|ks| - 1], k, j)
  }
}
