/**
 * The webview's root component (`App`): eight pieces of React state, the handlers of the
 * Debug, Accept, Reject, Modify and Save buttons, the tab buttons, the fix editor, the
 * listener for the host's messages and the effect that runs static analysis.
 *
 * Every `await` splits a handler in two: `BeginDebug` runs up to the request and
 * `CompleteDebug` runs the rest once the reply is known; the analysis effect likewise
 * starts in the handler that changed its dependencies and ends in `CompleteAnalysis`.
 * Messages to the host, HTTP requests and toasts are recorded in order.
 */
module WebviewApp {
  import opened Wrappers
  import StaticAnalysisPanel
  import ExplanationPanel

  datatype Tab = Fix | Explanation | Analysis

  /** `vscode.postMessage(...)`: the messages the webview sends to the extension. */
  datatype ToHost = WebviewReady | ApplyFix(code: string) | ClosePanel

  /** `event.data` of a window `message` event: an `initialCode` message, or one whose `type` is anything else. */
  datatype FromHost = InitialCode(code: string) | OtherMessage

  /** The two backend calls, each carrying `{code}`. */
  datatype Request = FixCodeRequest(code: string) | StaticAnalysisRequest(code: string)

  datatype Toast = SuccessToast(text: string) | ErrorToast(text: string)

  /**
   * How a `fetch` ended: rejected with no response, or a response with its `ok` flag and
   * the body `response.json()` decoded (`None` when decoding rejects).
   */
  datatype Reply<T> = NoResponse | Response(ok: bool, body: Option<T>)

  /** The fix endpoint's body; the backend always sends both fields as strings. */
  datatype FixBody = FixBody(fixedCode: string, shortExplanation: string)

  /** What `fetchFixedCode` resolves to. */
  datatype FixResult = FixResult(fixedCode: string, explanation: string)

  /** `analysisResults`: the three tool values handed to the analysis panel. */
  datatype AnalysisResults = AnalysisResults(
    pylint: StaticAnalysisPanel.ToolValue,
    mypy: StaticAnalysisPanel.ToolValue,
    bandit: StaticAnalysisPanel.ToolValue)

  /** The initial `{ pylint: [], mypy: [], bandit: [] }`. */
  const NoResults := AnalysisResults(StaticAnalysisPanel.Arr([]), StaticAnalysisPanel.Arr([]), StaticAnalysisPanel.Arr([]))

  const DebugSucceeded := SuccessToast("\U{2705} Code debugged successfully!")
  const DebugFailed := ErrorToast("\U{274C} Debugging failed. Try again.")
  const AnalysisFailed := ErrorToast("\U{274C} Static analysis failed.")

  /**
   * `fetchFixedCode(code)`: a non-ok response and a failed request or decode reject;
   * otherwise `shortExplanation` is renamed to `explanation`. For a failed request or an
   * undecodable body the reason is the browser's own error, which differs between
   * browsers and kinds of failure; the texts used here stand for any such reason. The
   * reason reaches only `console.error`, and no contract depends on it.
   */
  function FetchFixedCode(reply: Reply<FixBody>): (r: Result<FixResult, string>)
    ensures r.Success? <==> reply.Response? && reply.ok && reply.body.Some?
    ensures r.Success? ==>
      r.value.fixedCode == reply.body.value.fixedCode && r.value.explanation == reply.body.value.shortExplanation
    ensures reply.Response? && !reply.ok ==> r == Failure("Failed to fetch fix from backend")
  {
    match reply
    case NoResponse => Failure("Failed to fetch")
    case Response(ok, body) =>
      if !ok then Failure("Failed to fetch fix from backend")
      else if body.None? then Failure("Unexpected end of JSON input")
      else Success(FixResult(body.value.fixedCode, body.value.shortExplanation))
  }

  /**
   * `fetchStaticAnalysis(code)`: the decoded body of an ok response, unchanged. As for
   * `fetchFixedCode`, the reasons for a failed request or decode stand for the browser's
   * own error, which reaches only `console.error`.
   */
  function FetchStaticAnalysis(reply: Reply<AnalysisResults>): (r: Result<AnalysisResults, string>)
    ensures r.Success? <==> reply.Response? && reply.ok && reply.body.Some?
    ensures r.Success? ==> r.value == reply.body.value
    ensures reply.Response? && !reply.ok ==> r == Failure("Static analysis failed")
  {
    match reply
    case NoResponse => Failure("Failed to fetch")
    case Response(ok, body) =>
      if !ok then Failure("Static analysis failed")
      else if body.None? then Failure("Unexpected end of JSON input")
      else Success(body.value)
  }

  /**
   * The analysis effect's rule: it runs after a render in which `activeTab` or
   * `originalCode` changed, and only then starts a request, provided the analysis tab is
   * showing and there is code. No flag or cache is consulted.
   */
  predicate AnalysisTriggered(prevTab: Tab, prevCode: string, tab: Tab, code: string) {
    (prevTab != tab || prevCode != code) && tab == Analysis && code != ""
  }

  /** What the tab area shows. */
  datatype TabView =
    | FixEditor(code: string)
    | FixPlaceholder
    | ExplanationTab(explanation: ExplanationPanel.View)
    | AnalysisTab(analysis: StaticAnalysisPanel.PanelView)

  /** The button that toggles editing: Save while editing, Modify otherwise. */
  datatype EditButton = SaveButton | ModifyButton

  /**
   * The buttons on screen: whether Debug is enabled, and on the fix tab the Accept and
   * Reject buttons together with the edit button (`None` off the fix tab).
   */
  datatype Controls = Controls(debugEnabled: bool, fixActions: Option<EditButton>)

  /** The React state, all eight fields. */
  datatype State = State(
    originalCode: string,
    fixedCode: string,
    explanationText: string,
    isEditing: bool,
    loading: bool,
    activeTab: Tab,
    analysisResults: AnalysisResults,
    analysisLoading: bool)

  const Initial := State("", "", "", false, false, Fix, NoResults, false)

  class App {
    var originalCode: string
    var fixedCode: string
    var explanationText: string
    var isEditing: bool
    var loading: bool
    var activeTab: Tab
    var analysisResults: AnalysisResults
    var analysisLoading: bool

    /** Messages posted to the extension, requests sent to the backend, toasts shown. */
    var posted: seq<ToHost>
    var requests: seq<Request>
    var toasts: seq<Toast>

    /** Requests sent whose replies have not yet been handled. */
    ghost var fixesInFlight: nat
    ghost var analysesInFlight: nat

    /**
     * The disabled Debug button keeps at most one fix request in flight, and `loading` says
     * whether there is one. `analysisLoading` is only set while some analysis is in flight;
     * several may be.
     */
    ghost predicate Valid()
      reads this
    {
      fixesInFlight <= 1 && (loading <==> fixesInFlight == 1) && (analysisLoading ==> analysesInFlight > 0)
    }

    function CurrentState(): State
      reads this
    {
      State(originalCode, fixedCode, explanationText, isEditing, loading, activeTab, analysisResults, analysisLoading)
    }

    /** `renderTabContent()`: the editor only when there is fixed code; the two panels get their props. */
    function Content(): (v: TabView)
      reads this
      ensures v.FixEditor? <==> activeTab == Fix && fixedCode != ""
      ensures v.FixEditor? ==> v.code == fixedCode
      ensures v.FixPlaceholder? <==> activeTab == Fix && fixedCode == ""
      ensures v.ExplanationTab? <==> activeTab == Explanation
      ensures v.ExplanationTab? ==> v.explanation == ExplanationPanel.Render(Some(explanationText), loading)
      ensures v.AnalysisTab? <==> activeTab == Analysis
      ensures v.AnalysisTab? ==>
        v.analysis == StaticAnalysisPanel.Panel(analysisResults.pylint, analysisResults.mypy, analysisResults.bandit, analysisLoading)
    {
      match activeTab
      case Fix => if fixedCode != "" then FixEditor(fixedCode) else FixPlaceholder
      case Explanation => ExplanationTab(ExplanationPanel.Render(Some(explanationText), loading))
      case Analysis =>
        AnalysisTab(StaticAnalysisPanel.Panel(analysisResults.pylint, analysisResults.mypy, analysisResults.bandit, analysisLoading))
    }

    /** The buttons: Debug is disabled while loading; the fix actions only on the fix tab. */
    function ControlsShown(): (c: Controls)
      reads this
      ensures c.debugEnabled <==> !loading
      ensures c.fixActions.Some? <==> activeTab == Fix
      ensures c.fixActions == Some(SaveButton) <==> activeTab == Fix && isEditing
      ensures c.fixActions == Some(ModifyButton) <==> activeTab == Fix && !isEditing
    {
      Controls(!loading, if activeTab != Fix then None else if isEditing then Some(SaveButton) else Some(ModifyButton))
    }

    /** What the effect may do after a render, given the values of the previous render. */
    ghost predicate EffectFollows(prevTab: Tab, prevCode: string, prevRequests: seq<Request>,
                                  prevAnalysisLoading: bool, prevInFlight: nat)
      reads this
    {
      if AnalysisTriggered(prevTab, prevCode, activeTab, originalCode) then
        analysisLoading && requests == prevRequests + [StaticAnalysisRequest(originalCode)]
        && analysesInFlight == prevInFlight + 1
      else
        analysisLoading == prevAnalysisLoading && requests == prevRequests && analysesInFlight == prevInFlight
    }

    /** Mounting: the initial state, the listener installed and `webviewReady` posted. */
    constructor ()
      ensures Valid() && CurrentState() == Initial
      ensures posted == [WebviewReady] && requests == [] && toasts == []
      ensures fixesInFlight == 0 && analysesInFlight == 0
    {
      originalCode, fixedCode, explanationText := "", "", "";
      isEditing, loading, activeTab := false, false, Fix;
      analysisResults, analysisLoading := NoResults, false;
      posted, requests, toasts := [WebviewReady], [], [];
      fixesInFlight, analysesInFlight := 0, 0;
    }

    /** The analysis effect up to its `await`: start a request when the tab and the code call for one. */
    method RunAnalysisEffect()
      modifies this`analysisLoading, this`requests, this`analysesInFlight
      ensures activeTab == Analysis && originalCode != "" ==>
        analysisLoading && requests == old(requests) + [StaticAnalysisRequest(originalCode)]
        && analysesInFlight == old(analysesInFlight) + 1
      ensures !(activeTab == Analysis && originalCode != "") ==>
        analysisLoading == old(analysisLoading) && requests == old(requests) && analysesInFlight == old(analysesInFlight)
    {
      if activeTab == Analysis && originalCode != "" {
        analysisLoading := true;
        requests := requests + [StaticAnalysisRequest(originalCode)];
        analysesInFlight := analysesInFlight + 1;
      }
    }

    /** After a render: the effect runs when one of its dependencies changed. */
    method AfterRender(prevTab: Tab, prevCode: string)
      modifies this`analysisLoading, this`requests, this`analysesInFlight
      ensures EffectFollows(prevTab, prevCode, old(requests), old(analysisLoading), old(analysesInFlight))
    {
      if prevTab != activeTab || prevCode != originalCode {
        RunAnalysisEffect();
      }
    }

    /** `handleMessage(event)`: `initialCode` replaces the original code and clears the fix. */
    method ReceiveMessage(m: FromHost)
      requires Valid()
      modifies this
      ensures Valid()
      ensures m.InitialCode? ==> CurrentState() == old(CurrentState()).(originalCode := m.code, fixedCode := "",
                                                                          analysisLoading := analysisLoading)
      ensures m.OtherMessage? ==> CurrentState() == old(CurrentState()) && requests == old(requests)
      ensures EffectFollows(old(activeTab), old(originalCode), old(requests), old(analysisLoading), old(analysesInFlight))
      ensures posted == old(posted) && toasts == old(toasts) && fixesInFlight == old(fixesInFlight)
    {
      var prevTab, prevCode := activeTab, originalCode;
      if m.InitialCode? {
        originalCode := m.code;
        fixedCode := "";
      }
      AfterRender(prevTab, prevCode);
    }

    /** A tab button: `setActiveTab(tab)`. */
    method SelectTab(tab: Tab)
      requires Valid()
      modifies this
      ensures Valid()
      ensures CurrentState() == old(CurrentState()).(activeTab := tab, analysisLoading := analysisLoading)
      ensures EffectFollows(old(activeTab), old(originalCode), old(requests), old(analysisLoading), old(analysesInFlight))
      ensures posted == old(posted) && toasts == old(toasts) && fixesInFlight == old(fixesInFlight)
    {
      var prevTab, prevCode := activeTab, originalCode;
      activeTab := tab;
      AfterRender(prevTab, prevCode);
    }

    /** The fix editor's `onChange`: the draft becomes what the user typed. */
    method EditFixedCode(value: string)
      requires Valid() && Content().FixEditor?
      modifies this`fixedCode
      ensures Valid()
      ensures CurrentState() == old(CurrentState()).(fixedCode := value)
    {
      fixedCode := value;
    }

    /** `handleDebug` up to the `await`: only reachable through the enabled Debug button. */
    method BeginDebug()
      requires Valid() && ControlsShown().debugEnabled
      modifies this
      ensures Valid() && loading
      ensures CurrentState() == old(CurrentState()).(loading := true)
      ensures requests == old(requests) + [FixCodeRequest(originalCode)]
      ensures posted == old(posted) && toasts == old(toasts) && analysesInFlight == old(analysesInFlight)
    {
      loading := true;
      requests := requests + [FixCodeRequest(originalCode)];
      fixesInFlight := fixesInFlight + 1;
    }

    /**
     * `handleDebug` after the `await`: a fix replaces the fixed code and the explanation and
     * shows the fix tab; a failure keeps them. Either way `loading` is cleared.
     */
    method CompleteDebug(reply: Reply<FixBody>)
      requires Valid() && loading
      modifies this
      ensures Valid() && !loading && fixesInFlight == 0
      ensures match FetchFixedCode(reply)
        case Success(fix) =>
          CurrentState() == old(CurrentState()).(fixedCode := fix.fixedCode, explanationText := fix.explanation,
                                                 activeTab := Fix, loading := false)
          && toasts == old(toasts) + [DebugSucceeded]
        case Failure(_) =>
          CurrentState() == old(CurrentState()).(loading := false) && toasts == old(toasts) + [DebugFailed]
      ensures posted == old(posted) && requests == old(requests) && analysesInFlight == old(analysesInFlight)
    {
      var prevTab, prevCode := activeTab, originalCode;
      var r := FetchFixedCode(reply);
      match r {
        case Success(fix) =>
          fixedCode := fix.fixedCode;
          explanationText := fix.explanation;
          activeTab := Fix;
          toasts := toasts + [DebugSucceeded];
        case Failure(_) =>
          toasts := toasts + [DebugFailed];
      }
      loading := false;
      fixesInFlight := 0;
      assert !AnalysisTriggered(prevTab, prevCode, activeTab, originalCode);
      ghost var before := CurrentState();
      AfterRender(prevTab, prevCode);
      assert CurrentState() == before;
    }

    /**
     * The analysis effect after its `await`: a result replaces `analysisResults`, a failure
     * keeps them; `analysisLoading` is cleared even if another analysis is still in flight.
     */
    method CompleteAnalysis(reply: Reply<AnalysisResults>)
      requires Valid() && analysesInFlight > 0
      modifies this
      ensures Valid() && !analysisLoading && analysesInFlight == old(analysesInFlight) - 1
      ensures match FetchStaticAnalysis(reply)
        case Success(results) =>
          CurrentState() == old(CurrentState()).(analysisResults := results, analysisLoading := false)
          && toasts == old(toasts)
        case Failure(_) =>
          CurrentState() == old(CurrentState()).(analysisLoading := false) && toasts == old(toasts) + [AnalysisFailed]
      ensures posted == old(posted) && requests == old(requests) && fixesInFlight == old(fixesInFlight)
    {
      var r := FetchStaticAnalysis(reply);
      match r {
        case Success(results) =>
          analysisResults := results;
        case Failure(_) =>
          toasts := toasts + [AnalysisFailed];
      }
      analysisLoading := false;
      analysesInFlight := analysesInFlight - 1;
    }

    /** `handleAccept`: leave editing and ask the extension to apply the draft, whatever it is. */
    method Accept()
      requires Valid() && ControlsShown().fixActions.Some?
      modifies this`isEditing, this`posted
      ensures Valid()
      ensures CurrentState() == old(CurrentState()).(isEditing := false)
      ensures posted == old(posted) + [ApplyFix(fixedCode)]
    {
      isEditing := false;
      posted := posted + [ApplyFix(fixedCode)];
    }

    /** `handleReject`: ask the extension to close the panel; no state changes. */
    method Reject()
      requires Valid() && ControlsShown().fixActions.Some?
      modifies this`posted
      ensures Valid()
      ensures posted == old(posted) + [ClosePanel]
    {
      posted := posted + [ClosePanel];
    }

    /** `handleModify`: enter editing on the fix tab. */
    method Modify()
      requires Valid() && ControlsShown().fixActions == Some(ModifyButton)
      modifies this
      ensures Valid()
      ensures CurrentState() == old(CurrentState()).(isEditing := true, activeTab := Fix)
      ensures posted == old(posted) && requests == old(requests) && toasts == old(toasts)
      ensures fixesInFlight == old(fixesInFlight) && analysesInFlight == old(analysesInFlight)
    {
      var prevTab, prevCode := activeTab, originalCode;
      isEditing := true;
      activeTab := Fix;
      AfterRender(prevTab, prevCode);
    }

    /** `handleSave`: leave editing; the draft stays in state until Accept. */
    method Save()
      requires Valid() && ControlsShown().fixActions == Some(SaveButton)
      modifies this`isEditing
      ensures Valid()
      ensures CurrentState() == old(CurrentState()).(isEditing := false)
    {
      isEditing := false;
    }
  }

  /** The Debug guard: while a fix request is in flight the Debug handler cannot be started. */
  lemma DebugGuard(app: App)
    requires app.Valid() && app.fixesInFlight == 1
    ensures !app.ControlsShown().debugEnabled
  {
  }
}
