/**
 * The static-analysis tab: one section per tool (pylint, mypy, bandit). Each tool's
 * value is classified as a failure, a clean run or a list of issues, and every issue's
 * severity picks one of four display tiers.
 */
module StaticAnalysisPanel {
  import opened Wrappers
  import opened Strings

  /** An issue as the backend sends it; `line` may be absent (`undefined`, `null`). */
  datatype Issue = Issue(line: Option<int>, message: string, severity: string)

  /**
   * A tool's property as the panel receives it: absent (`undefined`, which the default
   * parameter turns into `[]`), present but not an array (`null`, an object, a string),
   * or an array of issues.
   */
  datatype ToolValue = Undefined | NotArray | Arr(issues: seq<Issue>)

  /** The default parameter `pylint = []`: only `undefined` is replaced. */
  function WithDefault(v: ToolValue): (r: ToolValue)
    ensures r.Arr? <==> !v.NotArray?
    ensures v.Arr? ==> r == v
    ensures v.Undefined? ==> r == Arr([])
  {
    if v.Undefined? then Arr([]) else v
  }

  /** The four display tiers of `getSeverityDetails`. */
  datatype Tier = Critical | Warning | Informational | Unknown

  /** The tier of a severity; the `switch` compares the lowercased severity. */
  function SeverityTier(severity: string): Tier {
    var s := Lower(severity);
    if s == "error" || s == "high" || s == "critical" then Critical
    else if s == "warning" || s == "medium" then Warning
    else if s == "info" || s == "low" then Informational
    else Unknown
  }

  function Color(t: Tier): string {
    match t
    case Critical => "#ff4444"
    case Warning => "#ff9900"
    case Informational => "#4CAF50"
    case Unknown => "#666666"
  }

  function Icon(t: Tier): string {
    match t
    case Critical => "\U{274C}"
    case Warning => "\U{26A0}\U{FE0F}"
    case Informational => "\U{2139}\U{FE0F}"
    case Unknown => "\U{1F50D}"
  }

  datatype Details = Details(color: string, icon: string)

  /** `getSeverityDetails(severity)`: total, one colour and icon per tier. */
  function SeverityDetails(severity: string): (d: Details)
    ensures d == Details(Color(SeverityTier(severity)), Icon(SeverityTier(severity)))
  {
    var t := SeverityTier(severity);
    Details(Color(t), Icon(t))
  }

  /** Spellings that differ only in letter case share their tier. */
  lemma SameTierIgnoringCase(a: string, b: string)
    requires SameIgnoringCase(a, b)
    ensures SeverityTier(a) == SeverityTier(b)
  {
    assert Lower(a) == Lower(b);
  }

  /** The red tier collects exactly the spellings of error, high and critical, in any case. */
  lemma CriticalTier(s: string)
    ensures SeverityTier(s) == Critical
        <==> SameIgnoringCase(s, "error") || SameIgnoringCase(s, "high") || SameIgnoringCase(s, "critical")
  {
    LowerIsWord(s, "error");
    LowerIsWord(s, "high");
    LowerIsWord(s, "critical");
  }

  /** The orange tier collects exactly the spellings of warning and medium. */
  lemma WarningTier(s: string)
    ensures SeverityTier(s) == Warning
        <==> SameIgnoringCase(s, "warning") || SameIgnoringCase(s, "medium")
  {
    var l := Lower(s);
    LowerIsWord(s, "warning");
    LowerIsWord(s, "medium");
    if l == "warning" || l == "medium" {
      assert |l| == 6 || |l| == 7;
    }
  }

  /** The green tier collects exactly the spellings of info and low. */
  lemma InformationalTier(s: string)
    ensures SeverityTier(s) == Informational
        <==> SameIgnoringCase(s, "info") || SameIgnoringCase(s, "low")
  {
    var l := Lower(s);
    LowerIsWord(s, "info");
    LowerIsWord(s, "low");
    if l == "info" {
      assert l[0] == 'i' && "high"[0] == 'h';
    }
  }

  /** Every other severity, the empty one included, falls into the grey tier. */
  lemma UnknownTier(s: string)
    ensures SeverityTier(s) == Unknown
        <==> !(SameIgnoringCase(s, "error") || SameIgnoringCase(s, "high") || SameIgnoringCase(s, "critical")
               || SameIgnoringCase(s, "warning") || SameIgnoringCase(s, "medium")
               || SameIgnoringCase(s, "info") || SameIgnoringCase(s, "low"))
  {
    CriticalTier(s);
    WarningTier(s);
    InformationalTier(s);
  }

  /** `"ERROR"`, `"Error"` and `"error"` are shown alike. */
  lemma ErrorSpellings()
    ensures SeverityTier("ERROR") == SeverityTier("Error") == SeverityTier("error") == Critical
  {
    CriticalTier("error");
    SameTierIgnoringCase("ERROR", "error");
    SameTierIgnoringCase("Error", "error");
  }

  /** `item.line || 0`: a missing line and line 0 both show as 0. */
  function DisplayLine(line: Option<int>): (n: int)
    ensures n == 0 <==> line.None? || line.value == 0
    ensures n != 0 ==> line == Some(n)
  {
    match line
    case None => 0
    case Some(k) => if k == 0 then 0 else k
  }

  /** One rendered list entry: its React key, colour, icon, line and message. */
  datatype Row = Row(key: string, color: string, icon: string, line: int, message: string)

  function RowOf(toolName: string, index: nat, item: Issue): (row: Row)
    ensures row.key == toolName + "-" + NatToString(index)
    ensures Details(row.color, row.icon) == SeverityDetails(item.severity)
    ensures row.line == DisplayLine(item.line) && row.message == item.message
  {
    var d := SeverityDetails(item.severity);
    Row(toolName + "-" + NatToString(index), d.color, d.icon, DisplayLine(item.line), item.message)
  }

  /** `issues.map(...)` from position `start` on. */
  function RowsFrom(toolName: string, issues: seq<Issue>, start: nat): (rows: seq<Row>)
    ensures |rows| == |issues|
    ensures forall k :: 0 <= k < |issues| ==> rows[k] == RowOf(toolName, start + k, issues[k])
    decreases |issues|
  {
    if issues == [] then []
    else [RowOf(toolName, start, issues[0])] + RowsFrom(toolName, issues[1..], start + 1)
  }

  /** What `renderIssues` shows for one tool. */
  datatype Outcome = Failed(text: string) | Clean(text: string) | IssueList(rows: seq<Row>)

  function FailureText(toolName: string): string {
    toolName + " analysis failed to run. Please check the backend service."
  }

  function CleanText(toolName: string): string {
    "No issues found in " + Lower(toolName) + " analysis \U{2705}"
  }

  /** `renderIssues(issues, toolName)`. */
  function RenderIssues(v: ToolValue, toolName: string): (r: Outcome)
    ensures r.Failed? <==> !v.Arr?
    ensures r.Clean? <==> v.Arr? && v.issues == []
    ensures r.IssueList? <==> v.Arr? && v.issues != []
    ensures r.Failed? ==> r.text == FailureText(toolName)
    ensures r.Clean? ==> r.text == CleanText(toolName)
    ensures r.IssueList? ==> |r.rows| == |v.issues|
    ensures r.IssueList? ==> forall k :: 0 <= k < |v.issues| ==> r.rows[k] == RowOf(toolName, k, v.issues[k])
  {
    if !v.Arr? then Failed(FailureText(toolName))
    else if v.issues == [] then Clean(CleanText(toolName))
    else IssueList(RowsFrom(toolName, v.issues, 0))
  }

  /** The list shows the messages in the order received. */
  lemma MessagesInOrder(v: ToolValue, toolName: string)
    requires v.Arr? && v.issues != []
    ensures var rows := RenderIssues(v, toolName).rows;
      forall k :: 0 <= k < |rows| ==> rows[k].message == v.issues[k].message && rows[k].line == DisplayLine(v.issues[k].line)
  {
  }

  /** The keys of one tool's list are pairwise distinct. */
  lemma RowKeysDistinct(v: ToolValue, toolName: string, j: nat, k: nat)
    requires v.Arr? && j < |v.issues| && k < |v.issues| && j != k
    ensures RenderIssues(v, toolName).rows[j].key != RenderIssues(v, toolName).rows[k].key
  {
    var rows := RenderIssues(v, toolName).rows;
    if rows[j].key == rows[k].key {
      var p := toolName + "-";
      assert rows[j].key == p + NatToString(j) && rows[k].key == p + NatToString(k);
      assert NatToString(j) == rows[j].key[|p|..];
      assert NatToString(k) == rows[k].key[|p|..];
      DigitsValueOfNatToString(j);
      DigitsValueOfNatToString(k);
    }
  }

  /** The whole panel. */
  datatype PanelView = Analyzing | Results(pylint: Outcome, mypy: Outcome, bandit: Outcome)

  function Panel(pylint: ToolValue, mypy: ToolValue, bandit: ToolValue, loading: bool): (p: PanelView)
    ensures loading <==> p.Analyzing?
    ensures p.Results? ==> p.pylint == RenderIssues(WithDefault(pylint), "Pylint")
    ensures p.Results? ==> p.mypy == RenderIssues(WithDefault(mypy), "Mypy")
    ensures p.Results? ==> p.bandit == RenderIssues(WithDefault(bandit), "Bandit")
  {
    if loading then Analyzing
    else Results(RenderIssues(WithDefault(pylint), "Pylint"),
                 RenderIssues(WithDefault(mypy), "Mypy"),
                 RenderIssues(WithDefault(bandit), "Bandit"))
  }

  /** An absent tool value renders as a clean run, a non-array one as a failure. */
  lemma AbsentIsClean(mypy: ToolValue, bandit: ToolValue)
    ensures Panel(Undefined, mypy, bandit, false).pylint == Clean(CleanText("Pylint"))
    ensures Panel(NotArray, mypy, bandit, false).pylint == Failed(FailureText("Pylint"))
  {
  }
}
