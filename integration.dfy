/**
 * The webview and the extension wired together: what one side posts is what the other
 * side's handler receives. The sessions below replay the protocol's exchanges on
 * concrete inputs.
 */
module Integration {
  import opened Wrappers
  import opened Strings
  import WebviewApp
  import Extension
  import ExplanationPanel

  /** A webview message as the extension's handler sees it. */
  function ToExtension(m: WebviewApp.ToHost): (r: Extension.FromWebview)
    ensures m.WebviewReady? <==> r.WebviewReady?
    ensures m.ApplyFix? <==> r.ApplyFix?
    ensures m.ApplyFix? ==> r.code == m.code
    ensures m.ClosePanel? <==> r.ClosePanel?
  {
    match m
    case WebviewReady => Extension.WebviewReady
    case ApplyFix(code) => Extension.ApplyFix(code)
    case ClosePanel => Extension.ClosePanel
  }

  /** An extension message as the webview's listener sees it. */
  function ToWebview(m: Extension.ToWebview): WebviewApp.FromHost
  {
    WebviewApp.InitialCode(m.code)
  }

  /** No character of `w` is a capital that begins a label. */
  predicate NoInitials(w: string) {
    forall i :: 0 <= i < |w| ==> w[i] != 'I' && w[i] != 'C' && w[i] != 'F'
  }

  /** Text without the capitals that begin the labels holds no label. */
  lemma {:induction false} NoLabelInitials(w: string)
    requires NoInitials(w)
    ensures !ExplanationPanel.ContainsLabel(w)
    decreases |w|
  {
    if w != [] {
      if ExplanationPanel.LabelAt(w).Some? {
        ExplanationPanel.LabelAtFirstChar(w);
      }
      assert forall i :: 0 <= i < |w[1..]| ==> w[1..][i] == w[i + 1];
      NoLabelInitials(w[1..]);
    }
  }

  /** One space on each side of a word, or only before it, is trimmed away. */
  lemma TrimPadded(w: string)
    requires w != [] && !IsSpace(w[0]) && !IsSpace(w[|w| - 1])
    ensures Trim(" " + w + " ") == w && Trim(" " + w) == w
  {
    assert (" " + w + " ")[1..] == w + " ";
    assert TrimStart(" " + w + " ") == w + " ";
    assert (w + " ")[..|w|] == w;
    assert (" " + w)[1..] == w;
    TrimOfTrimmed(w);
  }

  /** The explanation of the end-to-end example parses into its three sections. */
  lemma ExampleExplanation(text: string)
    requires text == "Issue: style Cause: spacing Fix: added spaces"
    ensures ExplanationPanel.Render(Some(text), false)
         == ExplanationPanel.SectionList([ExplanationPanel.Section("issue", "style"),
                                          ExplanationPanel.Section("cause", "spacing"),
                                          ExplanationPanel.Section("fix", "added spaces")])
  {
    ExampleTextPieces(text);
    ExampleParts(text);
  }

  /** The example text is the three labels, each followed by its word. */
  lemma ExampleTextPieces(text: string)
    requires text == "Issue: style Cause: spacing Fix: added spaces"
    ensures text == "Issue:" + (" style " + ("Cause:" + (" spacing " + ("Fix:" + " added spaces"))))
  {
    Piece1();
    Piece2();
    Piece3();
    Piece4();
    Piece5();
  }

  // Each step of the concatenation is its own lemma: checked together in one body, the
  // literal equalities make one another expensive.
  lemma Piece1() ensures "Fix:" + " added spaces" == "Fix: added spaces" {}
  lemma Piece2() ensures " spacing " + "Fix: added spaces" == " spacing Fix: added spaces" {}
  lemma Piece3() ensures "Cause:" + " spacing Fix: added spaces" == "Cause: spacing Fix: added spaces" {}
  lemma Piece4() ensures " style " + "Cause: spacing Fix: added spaces" == " style Cause: spacing Fix: added spaces" {}
  lemma Piece5() ensures "Issue:" + " style Cause: spacing Fix: added spaces" == "Issue: style Cause: spacing Fix: added spaces" {}

  /** The three labelled words, laid out as the example text, render as three sections. */
  lemma ExampleParts(text: string)
    requires text == "Issue:" + (" style " + ("Cause:" + (" spacing " + ("Fix:" + " added spaces"))))
    ensures ExplanationPanel.Render(Some(text), false)
         == ExplanationPanel.SectionList([ExplanationPanel.Section("issue", "style"),
                                          ExplanationPanel.Section("cause", "spacing"),
                                          ExplanationPanel.Section("fix", "added spaces")])
  {
    ExampleWord1();
    ExampleWord2();
    ExampleWord3Label();
    ExampleWord3Trim();
    LabelledWords(" style ", " spacing ", " added spaces", "style", "spacing", "added spaces");
  }

  /** Label-free text after each of the three labels becomes the content of that label's section. */
  lemma LabelledWords(a: string, b: string, c: string, wa: string, wb: string, wc: string)
    requires a != "" && b != "" && c != ""
    requires !ExplanationPanel.ContainsLabel(a) && !ExplanationPanel.ContainsLabel(b) && !ExplanationPanel.ContainsLabel(c)
    requires Trim(a) == wa && Trim(b) == wb && Trim(c) == wc
    ensures ExplanationPanel.Render(Some("Issue:" + (a + ("Cause:" + (b + ("Fix:" + c))))), false)
         == ExplanationPanel.SectionList([ExplanationPanel.Section("issue", wa),
                                          ExplanationPanel.Section("cause", wb),
                                          ExplanationPanel.Section("fix", wc)])
  {
    ExplanationPanel.ThreeSections(a, b, c);
  }

  lemma ExampleWord1()
    ensures !ExplanationPanel.ContainsLabel(" style ") && Trim(" style ") == "style"
  {
    assert NoInitials(" style ");
    PaddedWord(" style ", "style");
  }

  lemma ExampleWord2()
    ensures !ExplanationPanel.ContainsLabel(" spacing ") && Trim(" spacing ") == "spacing"
  {
    assert NoInitials(" spacing ");
    PaddedWord(" spacing ", "spacing");
  }

  lemma ExampleWord3Label()
    ensures !ExplanationPanel.ContainsLabel(" added spaces")
  {
    assert NoInitials(" added spaces");
    NoLabelInitials(" added spaces");
  }

  lemma ExampleWord3Trim()
    ensures Trim(" added spaces") == "added spaces"
  {
    assert " " + "added spaces" == " added spaces";
    TrimPadded("added spaces");
  }

  /** A word of the example with a space on each side: label-free, and trimmed back to the word. */
  lemma PaddedWord(p: string, w: string)
    requires w != [] && !IsSpace(w[0]) && !IsSpace(w[|w| - 1])
    requires NoInitials(p) && p == " " + w + " "
    ensures p != "" && !ExplanationPanel.ContainsLabel(p) && Trim(p) == w
  {
    TrimPadded(w);
    NoLabelInitials(p);
  }

  /**
   * The panel opens on a Python document `x=1`; the webview reports ready, receives the
   * snapshot, runs Debug and gets the fix `x = 1`. The fix tab then shows the fixed code,
   * the explanation tab the three sections, and exactly one fix request carried `x=1`.
   */
  method DebugSession() returns (fixTab: WebviewApp.TabView, explanationTab: WebviewApp.TabView, requests: seq<WebviewApp.Request>)
    ensures fixTab == WebviewApp.FixEditor("x = 1")
    ensures explanationTab == WebviewApp.ExplanationTab(ExplanationPanel.SectionList(
      [ExplanationPanel.Section("issue", "style"), ExplanationPanel.Section("cause", "spacing"),
       ExplanationPanel.Section("fix", "added spaces")]))
    ensures requests == [WebviewApp.FixCodeRequest("x=1")]
  {
    var document := Extension.Editor("python", "x=1");
    var panel := new Extension.PanelSession("<script src=\"{{bundleJsUri}}\"></script>", "bundle.js", Some(document), [document]);
    var app := new WebviewApp.App();
    panel.HandleMessage(ToExtension(app.posted[0]), true);
    assert panel.posted == [Extension.InitialCode("x=1")];
    app.ReceiveMessage(ToWebview(panel.posted[0]));
    assert app.originalCode == "x=1" && app.requests == [] && !app.loading;
    app.BeginDebug();
    assert app.requests == [WebviewApp.FixCodeRequest("x=1")];
    var body := WebviewApp.FixBody("x = 1", "Issue: style Cause: spacing Fix: added spaces");
    app.CompleteDebug(WebviewApp.Response(true, Some(body)));
    assert app.fixedCode == "x = 1" && app.activeTab == WebviewApp.Fix;
    fixTab := app.Content();
    app.SelectTab(WebviewApp.Explanation);
    ExampleExplanation(body.shortExplanation);
    explanationTab := app.Content();
    requests := app.requests;
  }

  /**
   * Accept with an empty draft: the webview posts `applyFix` with `""`, and the extension
   * empties the Python document and reports success.
   */
  method AcceptEmptyDraft() returns (posted: seq<WebviewApp.ToHost>, editors: seq<Extension.Editor>,
                                      notifications: seq<Extension.Notification>)
    ensures posted == [WebviewApp.WebviewReady, WebviewApp.ApplyFix("")]
    ensures editors == [Extension.Editor("markdown", "# notes"), Extension.Editor("python", "")]
    ensures notifications == [Extension.FixApplied]
  {
    var notes := Extension.Editor("markdown", "# notes");
    var document := Extension.Editor("python", "x=1");
    var panel := new Extension.PanelSession("", "bundle.js", Some(document), [notes, document]);
    var app := new WebviewApp.App();
    app.Accept();
    posted := app.posted;
    panel.HandleMessage(ToExtension(posted[1]), true);
    Extension.FullRangeReplace("x=1", "");
    editors, notifications := panel.editors, panel.notifications;
  }

  /** With no Python editor visible, `applyFix` shows the error and changes no document. */
  method ApplyWithoutPythonEditor() returns (editors: seq<Extension.Editor>, notifications: seq<Extension.Notification>)
    ensures editors == [Extension.Editor("javascript", "let x = 1;")]
    ensures notifications == [Extension.NoPythonFile]
  {
    var script := Extension.Editor("javascript", "let x = 1;");
    var panel := new Extension.PanelSession("", "bundle.js", Some(script), [script]);
    panel.HandleMessage(Extension.ApplyFix("x = 1"), true);
    editors, notifications := panel.editors, panel.notifications;
  }

  /**
   * The analysis effect keeps no guard and no cache: leaving the analysis tab and coming
   * back while the first request is in flight sends a second request for the same code.
   */
  method AnalysisRerunsOnReturn() returns (requests: seq<WebviewApp.Request>)
    ensures requests == [WebviewApp.StaticAnalysisRequest("x=1"), WebviewApp.StaticAnalysisRequest("x=1")]
  {
    var app := new WebviewApp.App();
    app.ReceiveMessage(WebviewApp.InitialCode("x=1"));
    app.SelectTab(WebviewApp.Analysis);
    app.SelectTab(WebviewApp.Fix);
    app.SelectTab(WebviewApp.Analysis);
    requests := app.requests;
  }
}
