/**
 * The extension side of the bridge: the command handler that fills the webview's HTML
 * template, captures the active Python document and answers the webview's messages.
 * The editor host is abstract: the visible editors are a sequence of
 * (language, text) pairs, and what the host decides (whether an edit is applied) is an
 * argument.
 */
module Extension {
  import opened Wrappers
  import opened Strings

  const Placeholder: string := "{{bundleJsUri}}"

  /** A visible text editor: its document's language and text. */
  datatype Editor = Editor(languageId: string, text: string)

  /** Messages from the webview, keyed by `type`; a message whose `type` is none of the three is `Unrecognised`. */
  datatype FromWebview = WebviewReady | ApplyFix(code: string) | ClosePanel | Unrecognised

  /** `panel.webview.postMessage(...)`: the only message sent is `initialCode`. */
  datatype ToWebview = InitialCode(code: string)

  datatype Notification = Info(text: string) | Error(text: string)

  const NoPythonFile := Error("\U{274C} No open Python file to apply the fix.")
  const FixApplied := Info("\U{2705} AI Fix applied successfully.")
  const FixFailed := Error("\U{274C} Failed to apply fix.")

  /**
   * `html.replace("{{bundleJsUri}}", uri)` with a string pattern: only the first
   * occurrence is replaced. The replacement is inserted verbatim. JavaScript would expand
   * `$&`, `$$`, `` $` `` and `$'` in it. That makes no difference at the one call, because
   * the replacement there is a webview URI, whose `toString()` percent-encodes `$`.
   */
  function ReplaceFirst(s: string, pattern: string, replacement: string): (r: string)
    ensures IndexOf(s, pattern).None? ==> r == s
    ensures IndexOf(s, pattern).Some? ==>
      var p := IndexOf(s, pattern).value;
      r == s[..p] + replacement + s[p + |pattern|..]
  {
    match IndexOf(s, pattern)
    case None => s
    case Some(p) => s[..p] + replacement + s[p + |pattern|..]
  }

  /**
   * A template laid out as `before + placeholder + after`, with no placeholder in `before`,
   * becomes `before + uri + after`: everything else, later placeholders included, is kept.
   */
  lemma TemplateSubstitution(before: string, after: string, uri: string)
    requires !Contains(before, Placeholder)
    ensures ReplaceFirst(before + Placeholder + after, Placeholder, uri) == before + uri + after
  {
    var s := before + Placeholder + after;
    var b, n := |before|, |Placeholder|;
    assert s[b..b + n] == Placeholder;
    forall j | 0 <= j < b ensures !StartsAt(s, Placeholder, j) {
      if j + n <= b {
        assert s[j..j + n] == before[j..j + n];
        assert !StartsAt(before, Placeholder, j);
      } else {
        var d := b - j;
        var k := if d == 1 then 2 else d;
        PlaceholderShift(d);
        assert s[j + k] == Placeholder[k - d];
        assert s[j..j + n][k] != Placeholder[k];
      }
    }
    assert StartsAt(s, Placeholder, b);
    var r := IndexOf(s, Placeholder);
    assert r.Some? && r.value <= b;
    assert r.value == b;
    assert s[..b] == before;
    assert s[b + n..] == after;
  }

  /**
   * `{{bundleJsUri}}` overlaps no shifted copy of itself: after a shift by `d`, the
   * characters at `k` and `k - d` differ, `k` being 2 for a shift by one and `d` otherwise.
   */
  lemma PlaceholderShift(d: nat)
    requires 0 < d < |Placeholder|
    ensures var k := if d == 1 then 2 else d; Placeholder[k - d] != Placeholder[k]
  {
    var p := Placeholder;
    assert p == ['{', '{', 'b', 'u', 'n', 'd', 'l', 'e', 'J', 's', 'U', 'r', 'i', '}', '}'];
  }

  /** The snapshot: the active editor's text when its language is Python, otherwise `""`. */
  function Snapshot(active: Option<Editor>): (code: string)
    ensures active.Some? && active.value.languageId == "python" ==> code == active.value.text
    ensures active.None? || active.value.languageId != "python" ==> code == ""
  {
    if active.Some? && active.value.languageId == "python" then active.value.text else ""
  }

  /** `editors.find(e => e.document.languageId === "python")`, as an index. */
  function FirstPython(editors: seq<Editor>): (r: Option<nat>)
    ensures r.Some? ==> r.value < |editors| && editors[r.value].languageId == "python"
    ensures r.Some? ==> forall k :: 0 <= k < r.value ==> editors[k].languageId != "python"
    ensures r.None? <==> forall k :: 0 <= k < |editors| ==> editors[k].languageId != "python"
  {
    if editors == [] then None
    else if editors[0].languageId == "python" then Some(0)
    else
      var r := FirstPython(editors[1..]);
      if r.None? then
        assert forall k :: 1 <= k < |editors| ==> editors[k] == editors[1..][k - 1];
        None
      else
        assert forall k :: 1 <= k < r.value + 1 ==> editors[k] == editors[1..][k - 1];
        Some(r.value + 1)
  }

  /** `editBuilder.replace(range, code)` on the range `[start, end)` of a document's text. */
  function Replace(text: string, start: nat, end: nat, code: string): (r: string)
    requires start <= end <= |text|
    ensures |r| == |text| - (end - start) + |code|
    ensures r[..start] == text[..start] && r[start..start + |code|] == code && r[start + |code|..] == text[end..]
  {
    text[..start] + code + text[end..]
  }

  /** The range from `positionAt(0)` to `positionAt(getText().length)` covers the whole text. */
  lemma FullRangeReplace(text: string, code: string)
    ensures Replace(text, 0, |text|, code) == code
  {
    var r := Replace(text, 0, |text|, code);
    assert r[0..|code|] == code;
  }

  /**
   * One webview panel and the handler registered on it. `editors` are the visible editors,
   * whose texts `applyFix` may change; `posted` and `notifications` record what the
   * extension sent to the webview and showed to the user.
   */
  class PanelSession {
    const html: string
    const snapshot: string
    var editors: seq<Editor>
    var disposed: bool
    var posted: seq<ToWebview>
    var notifications: seq<Notification>

    /**
     * The command handler: fill the template, capture the snapshot of the active editor,
     * register the message handler.
     */
    constructor (template: string, bundleUri: string, active: Option<Editor>, visible: seq<Editor>)
      ensures html == ReplaceFirst(template, Placeholder, bundleUri)
      ensures snapshot == Snapshot(active)
      ensures editors == visible && !disposed && posted == [] && notifications == []
    {
      html := ReplaceFirst(template, Placeholder, bundleUri);
      snapshot := Snapshot(active);
      editors := visible;
      disposed := false;
      posted := [];
      notifications := [];
    }

    /**
     * The `onDidReceiveMessage` handler. `editApplied` is what the host's `edit` resolves
     * to. A disposed panel receives no messages.
     */
    method HandleMessage(message: FromWebview, editApplied: bool)
      requires !disposed
      modifies this
      ensures message.WebviewReady? ==>
        posted == old(posted) + [InitialCode(snapshot)]
        && editors == old(editors) && notifications == old(notifications) && !disposed
      ensures message.ApplyFix? && FirstPython(old(editors)).None? ==>
        notifications == old(notifications) + [NoPythonFile]
        && editors == old(editors) && posted == old(posted) && !disposed
      ensures message.ApplyFix? && FirstPython(old(editors)).Some? ==>
        var i := FirstPython(old(editors)).value;
        var target := old(editors)[i];
        notifications == old(notifications) + [if editApplied then FixApplied else FixFailed]
        && editors == (if editApplied
                       then old(editors)[i := Editor(target.languageId, Replace(target.text, 0, |target.text|, message.code))]
                       else old(editors))
        && posted == old(posted) && !disposed
      ensures message.ClosePanel? ==>
        disposed && editors == old(editors) && posted == old(posted) && notifications == old(notifications)
      ensures message.Unrecognised? ==>
        !disposed && editors == old(editors) && posted == old(posted) && notifications == old(notifications)
    {
      match message {
        case WebviewReady =>
          posted := posted + [InitialCode(snapshot)];
        case ApplyFix(code) =>
          var target := FirstPython(editors);
          if target.None? {
            notifications := notifications + [NoPythonFile];
            return;
          }
          var i := target.value;
          var document := editors[i];
          if editApplied {
            editors := editors[i := Editor(document.languageId, Replace(document.text, 0, |document.text|, code))];
            notifications := notifications + [FixApplied];
          } else {
            notifications := notifications + [FixFailed];
          }
        case ClosePanel =>
          disposed := true;
        case Unrecognised =>
      }
    }
  }

  /** An applied fix leaves the target holding exactly the code, and every other editor as it was. */
  lemma ApplyFixEffect(editors: seq<Editor>, code: string, i: nat)
    requires FirstPython(editors) == Some(i)
    ensures var after := editors[i := Editor(editors[i].languageId, Replace(editors[i].text, 0, |editors[i].text|, code))];
      |after| == |editors| && after[i].text == code && after[i].languageId == "python"
      && forall k :: 0 <= k < |editors| && k != i ==> after[k] == editors[k]
  {
    FullRangeReplace(editors[i].text, code);
  }
}
