# AI Code Fixer — a verified model of its core

AI Code Fixer is a VS Code extension. It sends the active Python file to a local backend.
The backend asks a hosted language model for a fixed version and an explanation, and also
runs pylint, mypy and bandit over the code. A React webview shows the results in three tabs
(fix, explanation, analysis). **Accept** writes the fixed code back into the Python editor.

This Dafny project models the logic between those I/O edges. It has one module per source
file, plus two shared modules and one integration module:

- `Wrappers` holds `Option` and `Result`.
- `Strings` holds ASCII whitespace trimming, lowercasing, `find`/`indexOf`, `str.splitlines()`,
  `join`, and decimal rendering and parsing.
- `ExplanationPanel` (`Frontend/src/ExplanationPanel.jsx`) is `parseExplanation`, which turns
  `Issue: … Cause: … Fix: …` text into sections, and the panel's three render states.
- `StaticAnalysisPanel` (`Frontend/src/StaticAnalysisPanel.jsx`) covers:
  - the four severity tiers, with their colour and icon;
  - `renderIssues`, whose outcomes are failure, clean and a keyed row list;
  - the loading view.
- `AiResponse` (`backend/main.py`) covers:
  - `extract_code_block`: the fenced python block, then a generic block with a keyword, then
    the line scanner with its fence toggle and a final validation;
  - `extract_short_explanation`: tag removal, the split around python blocks, and the
    issue/cause/fix slot loop.
- `StaticAnalysis` (`backend/static_analysis.py`) covers:
  - the mypy line pattern, as a hand-written matcher;
  - the normalisation of bandit and pylint results, including every error entry;
  - `run_static_analysis`, whose results dictionary is filled in the order the futures complete.
- `WebviewApp` (`Frontend/src/App.jsx`) is the `App` component as a class. Its fields are the
  eight React state variables. It also records:
  - the messages posted to the extension;
  - the HTTP requests sent;
  - the toasts shown.

  Each async handler is split at its `await`.
- `Extension` (`Frontend/extension.js`) covers:
  - the command handler, which substitutes the template placeholder and captures the snapshot
    of the active Python editor;
  - the panel's message handler, as the class `PanelSession`.
- `Integration` connects the two message vocabularies. It replays end-to-end sessions on
  concrete inputs.

Pure code (the parsers, normalisers and renderers) is modelled as functions with lemmas.
The loops in the source are methods with invariants, each proved equal to a reference
function:
- the line scanner and the slot loop of `main.py`;
- the mypy parse loop and the `as_completed` loop.

The webview state and the panel session are classes whose methods state the complete new state.

Three behaviours of the code are worth stating on their own:
- The analysis effect in `App.jsx` has no "already analysing" guard and no cache. Leaving the
  analysis tab and coming back sends a second request (`Integration.AnalysisRerunsOnReturn`).
  `analysisLoading` is cleared by whichever request completes first.
- The only guard against a second Debug request is the button, which is disabled while a
  request is pending (`WebviewApp.DebugGuard`).
- A template that cannot be read makes the command handler throw. The handler does not catch
  the error, and the panel it has already created stays open without HTML. The model takes
  the template text as an input.

## Model

| member | source | states |
|---|---|---|
| ExplanationPanel.RemoveEmpty | Frontend/src/ExplanationPanel.jsx:9 | `filter(Boolean)` keeps only non-empty pieces, each one taken from the input |
| ExplanationPanel.ParseExplanation | Frontend/src/ExplanationPanel.jsx:5-19 | the result is null exactly when the text is missing or empty; every section's type is `issue`, `cause` or `fix` |
| ExplanationPanel.Render | Frontend/src/ExplanationPanel.jsx:22-45 | spinner exactly while loading; the "no explanation" view exactly when not loading and the text is falsy; otherwise the parsed sections (an empty list included) |
| ExplanationPanel.ParseFollowsLabels | Frontend/src/ExplanationPanel.jsx:9-19 | one section per occurrence of a label in the text, in the order the labels occur, each typed by its label |
| ExplanationPanel.SplitLabels | Frontend/src/ExplanationPanel.jsx:9 | the labels among the split pieces are exactly the label occurrences of the text, in order |
| ExplanationPanel.SplitShape | Frontend/src/ExplanationPanel.jsx:9 | every piece of the split is either a label or text that contains no label |
| ExplanationPanel.RemoveEmptyKeeps | Frontend/src/ExplanationPanel.jsx:9 | dropping empty pieces keeps every label piece and the shape of the rest |
| ExplanationPanel.ShapedTest | Frontend/src/ExplanationPanel.jsx:12-14 | on a split piece, the `match` test holds exactly when the piece is a label, and its type is the label's name in lower case |
| ExplanationPanel.SectionKinds | Frontend/src/ExplanationPanel.jsx:11-17 | the reduce emits one section per label piece, typed by that label |
| ExplanationPanel.LabelTextFacts | Frontend/src/ExplanationPanel.jsx:14 | removing the colon from a label and lowercasing gives `issue`, `cause` or `fix` |
| ExplanationPanel.SplitOfLabel | Frontend/src/ExplanationPanel.jsx:9 | a leading label splits off as `""` followed by the label |
| ExplanationPanel.SplitOfText | Frontend/src/ExplanationPanel.jsx:9 | label-free text before a label, or before the end, is a single piece |
| ExplanationPanel.SplitSkip | Frontend/src/ExplanationPanel.jsx:9 | text in which no label starts only extends the current piece |
| ExplanationPanel.NoStraddle | Frontend/src/ExplanationPanel.jsx:9 | no label straddles the boundary between label-free text and a following label |
| ExplanationPanel.NoLabelsNoSections | Frontend/src/ExplanationPanel.jsx:9-19 | non-empty text without labels parses to an empty list and renders an empty section list, not the placeholder |
| ExplanationPanel.LeadingTextDiscarded | Frontend/src/ExplanationPanel.jsx:11-17 | text before the first label contributes no section |
| ExplanationPanel.LabelThenText | Frontend/src/ExplanationPanel.jsx:13-16 | a label followed by label-free text gets that text, trimmed, as its content |
| ExplanationPanel.LabelsTouch | Frontend/src/ExplanationPanel.jsx:9-16 | for two adjacent labels, the first label's content is the second label's own text |
| ExplanationPanel.LabelAtEnd | Frontend/src/ExplanationPanel.jsx:15 | a label at the very end gets empty content |
| ExplanationPanel.LabelThenSpaces | Frontend/src/ExplanationPanel.jsx:15 | a label followed only by whitespace gets empty content |
| ExplanationPanel.ShortNoLabel | Frontend/src/ExplanationPanel.jsx:9 | text shorter than `Fix:` holds no label |
| ExplanationPanel.OneSection | Frontend/src/ExplanationPanel.jsx:11-17 | a single label with its text gives exactly one section |
| ExplanationPanel.SectionBefore | Frontend/src/ExplanationPanel.jsx:11-17 | a label with its text, in front of more labelled text, contributes its section first |
| ExplanationPanel.ThreeSections | Frontend/src/ExplanationPanel.jsx:5-19 | the usual `Issue: a Cause: b Fix: c` gives the three sections in order, with the trimmed texts |
| ExplanationPanel.WorkedExample | Frontend/src/ExplanationPanel.jsx:5-19 | `"Issue: A Cause: B Fix: C"` parses to issue A, cause B, fix C |
| StaticAnalysisPanel.WithDefault | Frontend/src/StaticAnalysisPanel.jsx:5 | only an undefined prop becomes `[]`; an array is kept; a non-array stays a non-array |
| StaticAnalysisPanel.SeverityDetails | Frontend/src/StaticAnalysisPanel.jsx:6-23 | colour and icon are those of the severity's tier |
| StaticAnalysisPanel.SameTierIgnoringCase | Frontend/src/StaticAnalysisPanel.jsx:7 | severities that differ only in case share a tier |
| StaticAnalysisPanel.CriticalTier | Frontend/src/StaticAnalysisPanel.jsx:10-13 | the red tier holds exactly the spellings of error, high and critical, in any case |
| StaticAnalysisPanel.WarningTier | Frontend/src/StaticAnalysisPanel.jsx:14-16 | the orange tier holds exactly warning and medium, in any case |
| StaticAnalysisPanel.InformationalTier | Frontend/src/StaticAnalysisPanel.jsx:17-19 | the green tier holds exactly info and low, in any case |
| StaticAnalysisPanel.UnknownTier | Frontend/src/StaticAnalysisPanel.jsx:20-21 | every other severity, the empty one included, is grey |
| StaticAnalysisPanel.ErrorSpellings | Frontend/src/StaticAnalysisPanel.jsx:7-13 | `ERROR`, `Error` and `error` all fall in the red tier |
| StaticAnalysisPanel.DisplayLine | Frontend/src/StaticAnalysisPanel.jsx:50 | a missing line and line 0 both show as 0, and any other line shows as itself |
| StaticAnalysisPanel.RowOf | Frontend/src/StaticAnalysisPanel.jsx:44-54 | a row's key is `tool-index`; its colour and icon come from the severity; its line and message come from the item |
| StaticAnalysisPanel.RowsFrom | Frontend/src/StaticAnalysisPanel.jsx:44-55 | one row per issue, in order, with consecutive indices |
| StaticAnalysisPanel.RenderIssues | Frontend/src/StaticAnalysisPanel.jsx:25-58 | failure text exactly for a non-array; the clean text exactly for `[]`; otherwise one row per issue |
| StaticAnalysisPanel.MessagesInOrder | Frontend/src/StaticAnalysisPanel.jsx:44-55 | the list shows the messages in the order received |
| StaticAnalysisPanel.RowKeysDistinct | Frontend/src/StaticAnalysisPanel.jsx:47 | the row keys of one tool are pairwise distinct |
| StaticAnalysisPanel.Panel | Frontend/src/StaticAnalysisPanel.jsx:60-100 | the loading view exactly while loading; otherwise the three tools rendered in order, with their defaults applied |
| StaticAnalysisPanel.AbsentIsClean | Frontend/src/StaticAnalysisPanel.jsx:5-32 | an absent tool value renders as a clean run; a non-array value renders as a failure |
| AiResponse.BlockSpan | backend/main.py:41 | the match's body lies after the opener and before a closing fence |
| AiResponse.BlockAfterFirstOpener | backend/main.py:41 | the body starts right after the first opener, and a fence follows the body |
| AiResponse.BlockEndsAtFirstFence | backend/main.py:41 | the lazy group ends at the first fence after the opener |
| AiResponse.BlockSpanNone | backend/main.py:41-42 | there is no match exactly when no opener is followed somewhere by a fence |
| AiResponse.FencedBlock | backend/main.py:41-43 | a block exists exactly when the pattern matches, and it is the matched span, stripped |
| AiResponse.BlockIsStripped | backend/main.py:43 | a block has no whitespace at either end |
| AiResponse.BlockHasNoFence | backend/main.py:41 | a block never contains a fence |
| AiResponse.Stripped | backend/main.py:58-59 | one stripped line per input line, the line at each position being that input line stripped |
| AiResponse.ScanSnoc | backend/main.py:58-70 | the scan of one more line is one more loop step |
| AiResponse.ScanToggleParity | backend/main.py:61-64 | `in_code_block` is set exactly when an odd number of fence lines has been seen |
| AiResponse.KeptAtPrefix | backend/main.py:58-70 | whether a line is kept depends only on the lines up to it |
| AiResponse.KeptPositions | backend/main.py:58-70 | the kept lines are the input lines at increasing positions, and a position is kept exactly when the scan's test keeps it |
| AiResponse.KeptHasNoFence | backend/main.py:62-64 | fence lines are never kept |
| AiResponse.FencedLinesKept | backend/main.py:62-70 | between an opening fence and its closing fence, every line is kept |
| AiResponse.ScanLines | backend/main.py:55-70 | the loop returns the kept lines of the stripped input |
| AiResponse.ScanOneMore | backend/main.py:58-70 | each iteration is one scan step on the stripped line |
| AiResponse.ScanResult | backend/main.py:72 | the joined, stripped scan has no whitespace at either end |
| AiResponse.CodeBlockOf | backend/main.py:29-80 | every answer of `extract_code_block` has no whitespace at either end |
| AiResponse.ExtractCodeBlock | backend/main.py:29-80 | the method, with its early returns, computes `CodeBlockOf` |
| AiResponse.PythonBlockWins | backend/main.py:40-43 | when there is a python block, it is the answer, and it holds no fence |
| AiResponse.GenericBlockNeedsKeyword | backend/main.py:45-80 | without a python block, a generic block that mentions a keyword is the answer; one that does not is skipped, and the answer is then the line scan when it looks like Python and `""` otherwise |
| AiResponse.ScanIsValidated | backend/main.py:45-80 | when no fenced block is taken (no python block, and no generic block with a keyword), the answer is the scan when it looks like Python, and `""` otherwise |
| AiResponse.TagClose | backend/main.py:87 | `<.*?>` closes at the first `>`, and only if no newline comes before it; with no such `>` there is no tag |
| AiResponse.StripTags | backend/main.py:87 | removing tags never lengthens the text, and a text without `<` is left as it is |
| AiResponse.StripKeepsOpenLine | backend/main.py:87 | an unclosed `<` stays unclosed after stripping |
| AiResponse.StripTagsIsTagFree | backend/main.py:87 | no tag is left after the substitution |
| AiResponse.TagFreeUnchanged | backend/main.py:87 | tag-free text is left unchanged |
| AiResponse.StripTagsIdempotent | backend/main.py:87 | removing tags twice equals removing them once |
| AiResponse.StripTagsRemovesTag | backend/main.py:87 | a tag that closes on its own line is removed with its contents, while the text before it and the text after it survive |
| AiResponse.SplitWith | backend/main.py:88 | a split always has at least one piece |
| AiResponse.SplitWithRebuilds | backend/main.py:88 | putting the removed texts back between the pieces gives the text that was split |
| AiResponse.SplitWithPieces | backend/main.py:88 | every piece but the last is the text before some block |
| AiResponse.SplitWithLast | backend/main.py:88 | no block starts in the last piece |
| AiResponse.SplitOutside | backend/main.py:88 | `re.split` always returns at least one piece |
| AiResponse.SplitOutsideWithoutBlock | backend/main.py:88 | a text without a block is returned whole, as the only piece |
| AiResponse.NextBlockCutsOut | backend/main.py:88 | each step cuts the text into the piece before the first block, that whole block, and the rest |
| AiResponse.SplitOutsideRebuilds | backend/main.py:88 | only whole blocks are dropped: each removed text runs from the opener to the first fence after it, and putting them back between the pieces gives the text |
| AiResponse.FirstPieceHasNoOpener | backend/main.py:88 | the text before the first block holds no opener |
| AiResponse.SplitPiecesHaveNoOpener | backend/main.py:88 | every piece but the last holds no opener |
| AiResponse.SplitLastHasNoBlock | backend/main.py:88 | the last piece holds no complete block |
| AiResponse.SplitRemovesPythonBlocks | backend/main.py:88 | after the split, no python block is left in any piece |
| AiResponse.NonBlank | backend/main.py:91 | the comprehension keeps at most as many lines as it reads |
| AiResponse.NonBlankPositions | backend/main.py:91 | the kept lines are, in their order, exactly the stripped lines that are not empty |
| AiResponse.NonBlankOnOneLine | backend/main.py:91 | every kept line is non-empty and holds no line boundary |
| AiResponse.NonBlankLinesOnOneLine | backend/main.py:91 | the non-blank lines of a piece are non-empty single lines |
| AiResponse.Step | backend/main.py:96-104 | one iteration sets at most one empty slot to the line: a problem line goes to an empty issue slot first; otherwise a cause line to an empty cause slot, then a fix line to an empty fix slot; otherwise the line falls back to an empty issue slot |
| AiResponse.SlotsAreFirstTaken | backend/main.py:95-104 | each slot holds the first line it takes, or stays empty when it takes none: the issue a problem line or a line no other slot takes, the cause a cause line the issue does not take, the fix a fix line neither takes |
| AiResponse.SlotsSettle | backend/main.py:95-104 | a slot, once set, never changes |
| AiResponse.SlotsComeFromLines | backend/main.py:95-104 | every set slot holds one of the lines, and a cause or fix carries its keywords |
| AiResponse.FirstProblemLineIsIssue | backend/main.py:97-98 | a first line that mentions a problem is the issue |
| AiResponse.FillSlots | backend/main.py:95-104 | the loop computes the slots of the lines |
| AiResponse.LinesOfParts | backend/main.py:90-91 | each piece gets its non-blank lines, in order |
| AiResponse.FirstNonEmpty | backend/main.py:90-93 | the first piece with lines, skipping exactly the pieces without lines before it |
| AiResponse.FirstNonEmptyStep | backend/main.py:90-93 | a piece without lines is skipped; a piece with lines is the answer |
| AiResponse.PieceSlots | backend/main.py:90-109 | the explanation is formatted from "Not found." when no piece has a non-blank line, and otherwise from the slots of the first piece that has one |
| AiResponse.ExtractShortExplanation | backend/main.py:83-109 | the method, with its `continue` and early return, computes the specified explanation |
| AiResponse.FormatLines | backend/main.py:106 | the f-string is exactly three lines, headed Issue, Cause and Fix |
| AiResponse.ExplanationSlotsOnOneLine | backend/main.py:90-109 | every slot of the chosen piece is a single line |
| AiResponse.ShortExplanationHasThreeLines | backend/main.py:83-109 | every explanation splits into exactly three labelled lines with non-empty text |
| StaticAnalysis.DigitsEnd | backend/static_analysis.py:15 | `\d+` takes the whole run of digits |
| StaticAnalysis.SpacesEnd | backend/static_analysis.py:15 | `\s*` takes the whole run of whitespace |
| StaticAnalysis.HeaderAt | backend/static_analysis.py:15 | the header (colon, digits, colon, whitespace, severity, colon) found at a colon, with severity error or warning |
| StaticAnalysis.FirstWhere | backend/static_analysis.py:15 | the lazy search finds the first position that satisfies the test, or none |
| StaticAnalysis.FirstHeader | backend/static_analysis.py:15 | `^(.*?)` stops at the first position where the header matches |
| StaticAnalysis.ShortestFrom | backend/static_analysis.py:15 | the lazy message group is the shortest prefix after which only an optional bracketed code remains |
| StaticAnalysis.MypyLineIssue | backend/static_analysis.py:15-26 | a matched line yields an issue whose severity is error or warning |
| StaticAnalysis.MypyLineMatches | backend/static_analysis.py:18-20 | a line matches exactly when the header occurs somewhere in it |
| StaticAnalysis.LowercaseSeverity | backend/static_analysis.py:25 | `.lower()` leaves both accepted severities unchanged |
| StaticAnalysis.MypyIssues | backend/static_analysis.py:17-26 | at most one issue per line |
| StaticAnalysis.ParseMypyOutput | backend/static_analysis.py:14-27 | the loop yields the issues of the matching lines, in order |
| StaticAnalysis.MypyIssuesAppend | backend/static_analysis.py:17-26 | the parse distributes over concatenated outputs, so line order is kept |
| StaticAnalysis.MypySeverities | backend/static_analysis.py:15 | every emitted severity is `error` or `warning` |
| StaticAnalysis.MypyLineRoundTrip | backend/static_analysis.py:15-26 | a printed `path:n: severity: message` line reads back as that line number, message and severity, whenever the header does not already match inside the path |
| StaticAnalysis.PathHasNoHeader | backend/static_analysis.py:15 | the header never matches inside a path without colons |
| StaticAnalysis.DrivePathRoundTrip | backend/static_analysis.py:15-26 | a Windows path such as `C:\t.py` reads back too: its drive colon is not followed by a line number |
| StaticAnalysis.MypyCodeExcluded | backend/static_analysis.py:15 | a trailing ` [code]` is not part of the message, for any path in which the header does not match |
| StaticAnalysis.HeaderOfMypyLine | backend/static_analysis.py:15 | the header of a printed line is found right after the path |
| StaticAnalysis.ShortestStopsAtCode | backend/static_analysis.py:15 | the lazy message stops exactly where the bracketed code begins |
| StaticAnalysis.ShortestReaches | backend/static_analysis.py:15 | the lazy group ends at the first position after which a code, or nothing, is left |
| StaticAnalysis.Get | backend/static_analysis.py:53-55 | `d.get(key, fallback)` gives the value when present and the fallback otherwise |
| StaticAnalysis.BanditIssue | backend/static_analysis.py:52-56 | line and message come from the result or the defaults; the severity is the lowercased severity, `low` by default |
| StaticAnalysis.BanditIssues | backend/static_analysis.py:51-58 | one issue per result, in order |
| StaticAnalysis.StderrOrSeeLogs | backend/static_analysis.py:64 | the stripped stderr when non-blank, otherwise a non-empty fallback |
| StaticAnalysis.RunBandit | backend/static_analysis.py:30-68 | return codes 0 and 1 with parsable JSON give the normalised results; every other outcome gives exactly one error entry, with the message for its case |
| StaticAnalysis.BanditErrorNamesCode | backend/static_analysis.py:62-66 | the return code can be read back from the error message |
| StaticAnalysis.BanditDefaults | backend/static_analysis.py:53-57 | a report without `results` gives `[]`; a result without fields gives line 0, an empty message and `low` |
| StaticAnalysis.PylintIssue | backend/static_analysis.py:110-116 | line and message come from the result or the defaults; `type`, lowercased, becomes the severity, `info` by default |
| StaticAnalysis.PylintIssues | backend/static_analysis.py:110-116 | one issue per result, in order |
| StaticAnalysis.RunPylint | backend/static_analysis.py:87-120 | non-blank stderr, unparsable output or an exception each give one error entry; otherwise the normalised results |
| StaticAnalysis.PylintStderrWins | backend/static_analysis.py:106-107 | non-blank stderr decides the result whatever the return code and stdout |
| StaticAnalysis.PylintDefaults | backend/static_analysis.py:112-114 | a result without fields gives line 0, an empty message and `info` |
| StaticAnalysis.MypyToolIssues | backend/static_analysis.py:122-147 | mypy's output goes through the line parser; an exception gives one error entry |
| StaticAnalysis.RunMypy | backend/static_analysis.py:122-147 | the method computes what `run_mypy` returns |
| StaticAnalysis.Key | backend/static_analysis.py:149-153 | each tool's key is `pylint`, `mypy` or `bandit` |
| StaticAnalysis.KeysDistinct | backend/static_analysis.py:149-153 | different tools have different keys |
| StaticAnalysis.Entry | backend/static_analysis.py:157-164 | a finished future gives the tool's list; a timeout or an exception gives the named error entry |
| StaticAnalysis.EntryIsToolListOrError | backend/static_analysis.py:157-164 | every value is either the tool's list or a single error entry |
| StaticAnalysis.Table | backend/static_analysis.py:72 | the dictionary has exactly the three keys, each holding its own value |
| StaticAnalysis.TableUpdate | backend/static_analysis.py:160-164 | writing a tool's key replaces that tool's value and keeps the other two |
| StaticAnalysis.ResultsStep | backend/static_analysis.py:157-164 | one more completed future overwrites only its own key |
| StaticAnalysis.ResultsComplete | backend/static_analysis.py:155-164 | once every future has completed, in any order, each key holds its tool's entry |
| StaticAnalysis.RunTool | backend/static_analysis.py:149-153 | the worker for a tool returns that tool's issues |
| StaticAnalysis.RunStaticAnalysis | backend/static_analysis.py:71-173 | whatever the completion order, the result has the three keys, each holding its tool's entry |
| WebviewApp.FetchFixedCode | Frontend/src/App.jsx:11-22 | resolves exactly for an ok response with a decoded body, renaming `shortExplanation` to `explanation`; a non-ok response rejects with the source's message |
| WebviewApp.FetchStaticAnalysis | Frontend/src/App.jsx:24-33 | resolves exactly for an ok response with a decoded body, which it returns unchanged |
| WebviewApp.App.Content | Frontend/src/App.jsx:109-148 | the fix tab shows the editor exactly when there is fixed code; the other tabs get their panels with the current props |
| WebviewApp.App.ControlsShown | Frontend/src/App.jsx:154-196 | Debug is enabled exactly when not loading; the fix actions appear only on the fix tab, with Save while editing and Modify otherwise |
| WebviewApp.App.constructor | Frontend/src/App.jsx:36-58 | mounting sets the initial state and posts `webviewReady` |
| WebviewApp.App.RunAnalysisEffect | Frontend/src/App.jsx:60-77 | a request is sent exactly when the analysis tab is showing and there is code |
| WebviewApp.App.AfterRender | Frontend/src/App.jsx:60-77 | the effect runs only when the tab or the code changed |
| WebviewApp.App.ReceiveMessage | Frontend/src/App.jsx:45-52 | `initialCode` replaces the original code and clears the fixed code; any other message changes nothing |
| WebviewApp.App.SelectTab | Frontend/src/App.jsx:161-166 | the tab changes, and the analysis effect follows |
| WebviewApp.App.EditFixedCode | Frontend/src/App.jsx:117 | the draft becomes the edited text |
| WebviewApp.App.BeginDebug | Frontend/src/App.jsx:79-82 | sets loading and sends one fix request carrying the original code |
| WebviewApp.App.CompleteDebug | Frontend/src/App.jsx:79-95 | a fix replaces the fixed code and the explanation and shows the fix tab; a failure keeps them and shows the error toast; loading is always cleared |
| WebviewApp.App.CompleteAnalysis | Frontend/src/App.jsx:60-73 | a result replaces the analysis results; a failure keeps them and shows the error toast; `analysisLoading` is always cleared |
| WebviewApp.App.Accept | Frontend/src/App.jsx:97-100 | leaves editing and posts `applyFix` with the current draft |
| WebviewApp.App.Reject | Frontend/src/App.jsx:102 | posts `closePanel` |
| WebviewApp.App.Modify | Frontend/src/App.jsx:103-106 | enters editing on the fix tab |
| WebviewApp.App.Save | Frontend/src/App.jsx:107 | leaves editing and keeps the draft |
| WebviewApp.DebugGuard | Frontend/src/App.jsx:155 | while a fix request is in flight, Debug is disabled |
| Extension.ReplaceFirst | Frontend/extension.js:27 | only the first occurrence of the placeholder is replaced, and a template without it is unchanged; the replacement is inserted verbatim (the URI at the call holds no `$`) |
| Extension.TemplateSubstitution | Frontend/extension.js:21-28 | `before + placeholder + after` becomes `before + uri + after` |
| Extension.PlaceholderShift | Frontend/extension.js:27 | the placeholder overlaps no shifted copy of itself |
| Extension.Snapshot | Frontend/extension.js:30-34 | the snapshot is the active editor's text for a Python editor, and `""` otherwise |
| Extension.FirstPython | Frontend/extension.js:41-44 | the first Python editor, or none exactly when there is no Python editor |
| Extension.Replace | Frontend/extension.js:52-59 | the replaced range holds the code, and the text outside it is unchanged |
| Extension.FullRangeReplace | Frontend/extension.js:52-58 | replacing the full range leaves exactly the code (the host's end-of-line conversion is not modelled) |
| Extension.PanelSession.constructor | Frontend/extension.js:8-36 | the HTML is the substituted template, and the snapshot is taken from the active editor |
| Extension.PanelSession.HandleMessage | Frontend/extension.js:36-69 | `webviewReady` posts the snapshot; `applyFix` rewrites the first Python editor and reports success or failure, or shows the no-file error; `closePanel` disposes; anything else changes nothing |
| Extension.ApplyFixEffect | Frontend/extension.js:41-62 | an applied fix leaves the target holding exactly the code, inserted verbatim, and every other editor unchanged |
| Integration.ToExtension | Frontend/extension.js:38-66 | each webview message arrives as the matching handler case, with its code |
| Integration.NoLabelInitials | Frontend/src/ExplanationPanel.jsx:9 | text without the labels' capital letters holds no label |
| Integration.ExampleExplanation | Frontend/src/ExplanationPanel.jsx:5-19 | the sample explanation parses into its three sections |
| Integration.DebugSession | Frontend/src/App.jsx:79-95 | ready, snapshot, Debug and fix together show the fixed code and the three sections, after exactly one fix request |
| Integration.AcceptEmptyDraft | Frontend/extension.js:57-62 | accepting an empty draft empties the Python document and reports success |
| Integration.ApplyWithoutPythonEditor | Frontend/extension.js:46-49 | without a Python editor, `applyFix` shows the error and changes no document |
| Integration.AnalysisRerunsOnReturn | Frontend/src/App.jsx:60-77 | returning to the analysis tab sends a second request for the same code |
| Strings.Trim | backend/main.py:38 | `strip()` leaves no whitespace at either end, and leaves nothing exactly for all-whitespace input |
| Strings.TrimIsSlice | backend/main.py:38 | the stripped text is a contiguous slice of the input |
| Strings.TrimTwice | backend/main.py:43 | stripping twice is stripping once |
| Strings.SplitLines | backend/static_analysis.py:17 | `splitlines()` gives lines without line boundaries, and no more lines than characters |
| Strings.SplitLinesRebuild | backend/static_analysis.py:17 | each line followed by the boundary dropped after it gives the text back |
| Strings.LineBreaksAreBoundaries | backend/static_analysis.py:17 | every dropped boundary is one break character or `\r\n`; only after the last line may it be missing |
| Strings.SplitLinesOfNonEmpty | backend/static_analysis.py:17 | a text has at least one line exactly when it is not empty |
| Strings.SplitLinesCons | backend/main.py:106 | `x + "\n" + y` splits after `x` |
| Strings.LowerIsWord | Frontend/src/StaticAnalysisPanel.jsx:7 | lowercasing equals a lowercase word exactly when the string equals it ignoring case |
| Strings.IndexOf | Frontend/extension.js:27 | the first occurrence of the pattern, or none exactly when it occurs nowhere |
| Strings.IntToStringRoundTrip | backend/static_analysis.py:64 | a rendered return code parses back to itself |

## Left out

- The HTTP plumbing is left out: the FastAPI routes, CORS, the hosted model client with its streaming, and the prompt text in `backend/main.py`. Only the two extraction functions are modelled. The hard-coded credential is not part of this model.
- Subprocesses, temporary files, threads and timeouts are left out. Each tool run is an input: a return code, stdout and stderr, or a raised exception. Each future's end is an input too: finished, timed out or raised. The completion order is an input as well.
- JSON decoding is an input (`Parsed` or `Unparsable`), and so are the fields present in each result. Only well-typed bodies are modelled: for bandit an object whose `results`, when present, is a list of objects, and for pylint a list of objects, with integer and string fields in both. A body of another shape (a non-object result, `"issue_severity": null`, a pylint body that is an object) raises inside the comprehension, and the source then reports `Bandit failed: …` or `Pylint crashed: …`; those paths are not modelled.
- The Windows `attrib` and `sleep` branch, file deletion and log printing are left out. They affect no result.
- React rendering, Monaco, toasts' timing and CSS are left out. The model records the view chosen, the rows shown and the toasts raised, in order.
- The VS Code API is left out: `activate`, command registration, `createWebviewPanel`, URI resolution and reading the template. The template text and the bundle URI are inputs. A template that cannot be read is not modelled.
- Whitespace, case, digits and word characters cover ASCII only. Python's `str.strip()` and `\s` also treat as whitespace U+001C–U+001F, U+0085, U+00A0 and the other Unicode spaces, and its `str.lower()` handles non-ASCII letters. JavaScript's `trim()` does not treat U+001C–U+001F as whitespace, but does strip U+00A0, the other Unicode space separators, U+FEFF and the line and paragraph separators; its `toLowerCase()` handles non-ASCII letters. Line splitting is not approximated: Strings.SplitLines breaks at Python's full set of `str.splitlines()` boundaries (`\n`, `\r`, `\r\n`, U+000B, U+000C, U+001C–U+001E, U+0085, U+2028 and U+2029).
- The regular expressions are hand-written scanners, each argued equal to its pattern in its doc comment. No regex engine is modelled.
- Extension.ApplyFixEffect, Extension.PanelSession.HandleMessage: each visible editor is taken to show its own document. Two split views of one document are not modelled, so the model does not capture an edit showing up in a second editor.
- Extension.ApplyFixEffect, Extension.PanelSession.HandleMessage, Extension.FullRangeReplace, Integration.AcceptEmptyDraft: the edit is taken to insert the code verbatim. The host's conversion of the inserted text's line ends to the document's end-of-line sequence is not modelled, so for a document with `\r\n` line ends the model says the target holds `code` where the editor holds `code` with each `\n` written as `\r\n`.
- Extension.PanelSession.HandleMessage: `requires !disposed`, because the host delivers no messages to a disposed panel. Async interleaving between two handler runs is not modelled: the visible editors do not change between a message and its edit.
- WebviewApp.App.BeginDebug, WebviewApp.App.Accept, WebviewApp.App.Reject, WebviewApp.App.Modify, WebviewApp.App.Save, WebviewApp.App.EditFixedCode: each requires that its button or editor is on screen. The DOM fires no event for an element that is not rendered or is disabled.
- WebviewApp.FetchFixedCode: the backend always sends both fields as strings, so a body with a missing or non-string field is not modelled.
- WebviewApp.App.CompleteAnalysis: the reply is assumed to arrive while the webview is mounted. Replies after unmount are not modelled.
