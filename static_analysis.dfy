/**
 * The backend's tool-output normalisers: the mypy line parser, the bandit and pylint
 * JSON-to-issue mappings with their error fallbacks, and the dictionary that collects
 * the three tools' lists. The processes themselves are inputs: what `subprocess.run`
 * returned (or the exception raised on the way), with JSON output already decoded or
 * rejected by `json.loads`.
 */
module StaticAnalysis {
  import opened Wrappers
  import opened Strings

  /** `{"line": ..., "message": ..., "severity": ...}`. */
  datatype Issue = Issue(line: int, message: string, severity: string)

  // ---------------------------------------------------------------------------
  // mypy: `^(.*?):(\d+):\s*(error|warning):\s*(.*?)(?:\s*\[.*\])?$`
  // ---------------------------------------------------------------------------

  /** The end of the run of decimal digits that starts at `i`. */
  function DigitsEnd(s: string, i: nat): (j: nat)
    requires i <= |s|
    ensures i <= j <= |s|
    ensures forall k :: i <= k < j ==> IsDigit(s[k])
    ensures j < |s| ==> !IsDigit(s[j])
    decreases |s| - i
  {
    if i < |s| && IsDigit(s[i]) then DigitsEnd(s, i + 1) else i
  }

  /** The end of the run of whitespace that starts at `i`. */
  function SpacesEnd(s: string, i: nat): (j: nat)
    requires i <= |s|
    ensures i <= j <= |s|
    ensures forall k :: i <= k < j ==> IsSpace(s[k])
    ensures j < |s| ==> !IsSpace(s[j])
    decreases |s| - i
  {
    if i < |s| && IsSpace(s[i]) then SpacesEnd(s, i + 1) else i
  }

  /** The groups fixed by `:(\d+):\s*(error|warning):`, and where the message part starts. */
  datatype Header = Header(lineno: nat, severity: string, rest: nat)

  /**
   * `:(\d+):\s*(error|warning):` matched at `i`. `\d+` has to stop at a colon and `\s*` at
   * the `e` or `w` that follows, so each is the whole run there and backtracking finds no
   * other match.
   */
  function HeaderAt(line: string, i: nat): (h: Option<Header>)
    ensures h.Some? ==> i < |line| && line[i] == ':' && h.value.rest <= |line|
    ensures h.Some? ==> h.value.severity == "error" || h.value.severity == "warning"
  {
    if i < |line| && line[i] == ':' then NumberedHeader(line, i, DigitsEnd(line, i + 1)) else None
  }

  /** The header after the colon at `i`, whose digit run ends at `j`. */
  function NumberedHeader(line: string, i: nat, j: nat): (h: Option<Header>)
    requires i < j <= |line| && forall k :: i + 1 <= k < j ==> IsDigit(line[k])
    ensures h.Some? ==> h.value.rest <= |line|
    ensures h.Some? ==> h.value.severity == "error" || h.value.severity == "warning"
  {
    if i + 1 < j < |line| && line[j] == ':' then
      assert AllDigits(line[i + 1..j]);
      SeverityHeader(line, DigitsValue(line[i + 1..j]), SpacesEnd(line, j + 1))
    else None
  }

  /** `(error|warning):` at `k`, for the line number `n`. */
  function SeverityHeader(line: string, n: nat, k: nat): (h: Option<Header>)
    ensures h.Some? ==> h.value.rest <= |line|
    ensures h.Some? ==> h.value.severity == "error" || h.value.severity == "warning"
  {
    if StartsAt(line, "error:", k) then Some(Header(n, "error", k + 6))
    else if StartsAt(line, "warning:", k) then Some(Header(n, "warning", k + 8))
    else None
  }

  /** The first position in `[i, n)` that satisfies `f`, trying them from left to right. */
  function FirstWhere(f: nat -> bool, i: nat, n: nat): (p: Option<nat>)
    requires i <= n
    ensures p.Some? ==> i <= p.value < n && f(p.value)
    ensures p.Some? ==> forall q :: i <= q < p.value ==> !f(q)
    ensures p.None? <==> forall q :: i <= q < n ==> !f(q)
    decreases n - i
  {
    if i == n then None
    else if f(i) then Some(i)
    else FirstWhere(f, i + 1, n)
  }

  /** The left-to-right search ends at the first position that satisfies `f`. */
  lemma {:induction false} FirstWhereIs(f: nat -> bool, i: nat, n: nat, p: nat)
    requires i <= p < n && f(p)
    requires forall q :: i <= q < p ==> !f(q)
    ensures FirstWhere(f, i, n) == Some(p)
    decreases p - i
  {
    if i < p {
      FirstWhereIs(f, i + 1, n, p);
    }
  }

  /** Whether the header matches at `q`. */
  function HeaderMatches(line: string): nat -> bool {
    (q: nat) => HeaderAt(line, q).Some?
  }

  /** The lazy `^(.*?)`: the first position, at or after `i`, where the header matches. */
  function FirstHeader(line: string, i: nat): (p: Option<nat>)
    requires i <= |line|
    ensures p.Some? ==> i <= p.value < |line| && HeaderAt(line, p.value).Some?
    ensures p.Some? ==> forall q :: i <= q < p.value ==> HeaderAt(line, q).None?
    ensures p.None? <==> forall q :: i <= q < |line| ==> HeaderAt(line, q).None?
  {
    var f := HeaderMatches(line);
    var r := FirstWhere(f, i, |line|);
    assert forall q :: f(q) == HeaderAt(line, q).Some?;
    r
  }

  /** `\s*\[.*\]` matches all of `r`. */
  predicate BracketTail(r: string) {
    var u := TrimStart(r);
    |u| >= 2 && u[0] == '[' && u[|u| - 1] == ']'
  }

  /**
   * The lazy `(.*?)` before `(?:\s*\[.*\])?$`: the shortest prefix of `t`, of length at
   * least `k`, after which only nothing or a bracketed code is left.
   */
  function ShortestFrom(t: string, k: nat): (m: string)
    requires k <= |t|
    ensures k <= |m| <= |t| && m == t[..|m|]
    ensures |m| == |t| || BracketTail(t[|m|..])
    ensures forall q :: k <= q < |m| ==> !BracketTail(t[q..])
    decreases |t| - k
  {
    if k == |t| then t
    else if BracketTail(t[k..]) then t[..k]
    else ShortestFrom(t, k + 1)
  }

  /** The message group: the greedy `\s*` takes the leading whitespace, then the lazy group. */
  function MessageOf(t: string): string {
    ShortestFrom(TrimStart(t), 0)
  }

  /** `pattern.match(line)` and the issue built from its groups, if it matches. */
  function MypyLineIssue(line: string): (r: Option<Issue>)
    ensures r.Some? ==> r.value.severity == "error" || r.value.severity == "warning"
  {
    match FirstHeader(line, 0)
    case None => None
    case Some(p) =>
      var h := HeaderAt(line, p).value;
      LowercaseSeverity(h.severity);
      Some(Issue(h.lineno, MessageOf(line[h.rest..]), Lower(h.severity)))
  }

  /** A line matches exactly when the header occurs somewhere in it. */
  lemma MypyLineMatches(line: string)
    ensures MypyLineIssue(line).Some? <==> exists p :: 0 <= p < |line| && HeaderAt(line, p).Some?
  {
    if FirstHeader(line, 0).None? {
      assert forall p :: 0 <= p < |line| ==> HeaderAt(line, p).None?;
    }
  }

  /** `.lower()` leaves both spellings the pattern accepts unchanged. */
  lemma LowercaseSeverity(s: string)
    requires s == "error" || s == "warning"
    ensures Lower(s) == s
  {
    assert NoCapitals(s);
    LowerOfLowercase(s);
  }

  /** The issues of the lines that match, in order. */
  function MypyIssues(lines: seq<string>): (r: seq<Issue>)
    ensures |r| <= |lines|
  {
    if lines == [] then []
    else
      var m := MypyLineIssue(lines[|lines| - 1]);
      MypyIssues(lines[..|lines| - 1]) + (if m.Some? then [m.value] else [])
  }

  /** `parse_mypy_output(output)`. */
  method ParseMypyOutput(output: string) returns (results: seq<Issue>)
    ensures results == MypyIssues(SplitLines(output))
  {
    var lines := SplitLines(output);
    results := [];
    for i := 0 to |lines|
      invariant results == MypyIssues(lines[..i])
    {
      var m := MypyLineIssue(lines[i]);
      MypyIssuesPrefix(lines, i);
      if m.Some? {
        results := results + [m.value];
      }
    }
    assert lines[..|lines|] == lines;
  }

  lemma MypyIssuesSnoc(lines: seq<string>, line: string)
    ensures MypyIssues(lines + [line]) == MypyIssues(lines) + (if MypyLineIssue(line).Some? then [MypyLineIssue(line).value] else [])
  {
    assert (lines + [line])[..|lines|] == lines;
  }

  lemma MypyIssuesPrefix(lines: seq<string>, i: nat)
    requires i < |lines|
    ensures MypyIssues(lines[..i + 1])
      == MypyIssues(lines[..i]) + (if MypyLineIssue(lines[i]).Some? then [MypyLineIssue(lines[i]).value] else [])
  {
    assert lines[..i + 1] == lines[..i] + [lines[i]];
    MypyIssuesSnoc(lines[..i], lines[i]);
  }

  /** The parse distributes over concatenation of line lists: the output keeps the line order. */
  lemma {:induction false} MypyIssuesAppend(a: seq<string>, b: seq<string>)
    ensures MypyIssues(a + b) == MypyIssues(a) + MypyIssues(b)
    decreases |b|
  {
    if b != [] {
      var init, last := b[..|b| - 1], b[|b| - 1];
      assert a + b == (a + init) + [last];
      assert b == init + [last];
      MypyIssuesSnoc(a + init, last);
      MypyIssuesSnoc(init, last);
      MypyIssuesAppend(a, init);
    } else {
      assert a + b == a;
    }
  }

  /** One line gives one issue when it matches and none when it does not. */
  lemma MypyIssuesOfLine(line: string)
    ensures MypyIssues([line]) == if MypyLineIssue(line).Some? then [MypyLineIssue(line).value] else []
  {
    assert [line][..0] == [];
  }

  /** Every emitted severity is `"error"` or `"warning"`. */
  lemma {:induction false} MypySeverities(lines: seq<string>)
    ensures forall k :: 0 <= k < |MypyIssues(lines)| ==>
      MypyIssues(lines)[k].severity == "error" || MypyIssues(lines)[k].severity == "warning"
  {
    if lines != [] {
      var init := lines[..|lines| - 1];
      var m := MypyLineIssue(lines[|lines| - 1]);
      assert MypyIssues(lines) == MypyIssues(init) + (if m.Some? then [m.value] else []);
      MypySeverities(init);
    }
  }

  /** The line mypy prints for one diagnostic. */
  function MypyLine(path: string, n: nat, severity: string, message: string): string {
    path + ":" + NatToString(n) + ": " + severity + ": " + message
  }

  /** A message that reads back unchanged: no edge whitespace, no trailing `]`. */
  predicate PlainMessage(m: string) {
    m == [] || (!IsSpace(m[0]) && !IsSpace(m[|m| - 1]) && m[|m| - 1] != ']')
  }

  /**
   * The header does not match anywhere inside the first `n` characters of `line`: a path
   * of that length does not end the lazy `^(.*?)` early. A path without colons always
   * qualifies, and so does a drive letter such as `C:\`.
   */
  predicate NoHeaderBefore(line: string, n: nat) {
    forall q :: 0 <= q < n ==> HeaderAt(line, q).None?
  }

  /** A path in which no header matches, a line number, a severity and a plain message read back as printed. */
  lemma MypyLineRoundTrip(path: string, n: nat, severity: string, message: string)
    requires NoHeaderBefore(MypyLine(path, n, severity, message), |path|)
    requires (severity == "error" || severity == "warning") && PlainMessage(message)
    ensures MypyLineIssue(MypyLine(path, n, severity, message)) == Some(Issue(n, message, severity))
  {
    var line := MypyLine(path, n, severity, message);
    var rest := HeaderOfMypyLine(path, n, severity, message, line);
    TrimStartOfSpaced(message);
    ShortestIsAll(message);
    MypyLineIssueIs(line, |path|, Header(n, severity, rest));
  }

  /** A trailing error code such as ` [arg-type]` is not part of the message. */
  lemma MypyCodeExcluded(path: string, n: nat, severity: string, message: string, code: string)
    requires NoHeaderBefore(MypyLine(path, n, severity, message + " [" + code + "]"), |path|)
    requires severity == "error" || severity == "warning"
    requires (message == [] || (!IsSpace(message[0]) && !IsSpace(message[|message| - 1]))) && '[' !in message
    ensures MypyLineIssue(MypyLine(path, n, severity, message + " [" + code + "]")) == Some(Issue(n, message, severity))
  {
    var tail := message + " [" + code + "]";
    var line := MypyLine(path, n, severity, tail);
    var rest := HeaderOfMypyLine(path, n, severity, tail, line);
    MessageBeforeCode(message, code);
    MypyLineIssueIs(line, |path|, Header(n, severity, rest));
  }

  /** The message group of ` <message> [<code>]` is `<message>`. */
  lemma MessageBeforeCode(message: string, code: string)
    requires (message == [] || (!IsSpace(message[0]) && !IsSpace(message[|message| - 1]))) && '[' !in message
    ensures MessageOf(" " + (message + " [" + code + "]")) == message
  {
    var tail := message + " [" + code + "]";
    var bracketed := "[" + code + "]";
    if message == [] {
      assert tail == " " + bracketed;
      TrimStartOfSpaced(bracketed);
      assert (" " + tail)[1..] == " " + bracketed;
      ShortestReaches(bracketed, 0, 0);
    } else {
      TrimStartOfSpaced(tail);
      ShortestStopsAtCode(message, code);
    }
  }

  /** The issue of a line whose first header is `h`, found at `p`. */
  lemma MypyLineIssueIs(line: string, p: nat, h: Header)
    requires FirstHeader(line, 0) == Some(p) && HeaderAt(line, p) == Some(h)
    ensures MypyLineIssue(line) == Some(Issue(h.lineno, MessageOf(line[h.rest..]), h.severity))
  {
    LowercaseSeverity(h.severity);
  }

  /** The header of a printed line is found right after the path, with its number and severity. */
  lemma HeaderOfMypyLine(path: string, n: nat, severity: string, message: string, line: string) returns (rest: nat)
    requires NoHeaderBefore(line, |path|) && (severity == "error" || severity == "warning")
    requires line == MypyLine(path, n, severity, message)
    ensures rest <= |line| && line[rest..] == " " + message
    ensures FirstHeader(line, 0) == Some(|path|)
    ensures HeaderAt(line, |path|) == Some(Header(n, severity, rest))
  {
    var d := NatToString(n);
    LineSlices(path, d, severity, message, line);
    DigitsValueOfNatToString(n);
    rest := HeaderAfterPath(line, |path|, d, severity, message, n);
    FirstHeaderIs(line, 0, |path|);
  }

  /** The header of a line laid out as `<path>:<d>: <severity>: <message>`, where the path ends at `p`. */
  lemma HeaderAfterPath(line: string, p: nat, d: string, severity: string, message: string, n: nat) returns (rest: nat)
    requires severity == "error" || severity == "warning"
    requires d != [] && AllDigits(d) && DigitsValue(d) == n
    requires var j := p + 1 + |d|;
      j + 3 + |severity| <= |line| && line[p] == ':' && line[p + 1..j] == d
      && line[j] == ':' && line[j + 1] == ' '
      && line[j + 2..j + 3 + |severity|] == severity + ":" && line[j + 3 + |severity|..] == " " + message
    ensures rest <= |line| && line[rest..] == " " + message
    ensures HeaderAt(line, p) == Some(Header(n, severity, rest))
  {
    var j := p + 1 + |d|;
    rest := j + 3 + |severity|;
    forall k | p + 1 <= k < j ensures IsDigit(line[k]) {
      assert line[k] == line[p + 1..j][k - p - 1];
    }
    DigitsEndIs(line, p + 1, j);
    assert line[j + 2] == (severity + ":")[0];
    SpacesEndIs(line, j + 1, j + 2);
    HeaderAtIs(line, p, j, j + 2, severity, n);
  }

  /** Where the pieces of a printed line sit. */
  lemma LineSlices(path: string, d: string, severity: string, message: string, line: string)
    requires line == path + ":" + d + ": " + severity + ": " + message
    ensures var p, j := |path|, |path| + 1 + |d|;
      j + 3 + |severity| <= |line| && path <= line && line[p] == ':' && line[p + 1..j] == d
      && line[j] == ':' && line[j + 1] == ' '
      && line[j + 2..j + 3 + |severity|] == severity + ":" && line[j + 3 + |severity|..] == " " + message
  {
  }

  /** No header starts inside a path without colons. */
  lemma PathHasNoHeader(path: string, line: string)
    requires ':' !in path && path <= line
    ensures NoHeaderBefore(line, |path|)
  {
    forall q | 0 <= q < |path| ensures HeaderAt(line, q).None? {
      assert line[q] == path[q];
    }
  }

  /** A Windows path: the drive colon is followed by a backslash, not by a line number. */
  lemma DrivePathRoundTrip(n: nat)
    ensures MypyLineIssue(MypyLine("C:\\t.py", n, "error", "bad")) == Some(Issue(n, "bad", "error"))
  {
    var line := MypyLine("C:\\t.py", n, "error", "bad");
    assert line[..7] == "C:\\t.py";
    forall q | 0 <= q < 7 ensures HeaderAt(line, q).None? {
      if q == 1 {
        assert DigitsEnd(line, 2) == 2;
      } else {
        assert line[q] != ':';
      }
    }
    MypyLineRoundTrip("C:\\t.py", n, "error", "bad");
  }

  /** The header at `i`, given where its digit run and its whitespace run end. */
  lemma HeaderAtIs(line: string, i: nat, j: nat, k: nat, severity: string, n: nat)
    requires severity == "error" || severity == "warning"
    requires i + 1 < j < |line| && line[i] == ':' && line[j] == ':'
    requires DigitsEnd(line, i + 1) == j && SpacesEnd(line, j + 1) == k
    requires k + |severity| + 1 <= |line| && line[k..k + |severity| + 1] == severity + ":"
    requires AllDigits(line[i + 1..j]) && DigitsValue(line[i + 1..j]) == n
    ensures HeaderAt(line, i) == Some(Header(n, severity, k + |severity| + 1))
  {
    SeverityHeaderIs(line, n, k, severity);
    assert NumberedHeader(line, i, j) == SeverityHeader(line, n, k);
  }

  /** The severity header at `k`, when `severity:` is written there. */
  lemma SeverityHeaderIs(line: string, n: nat, k: nat, severity: string)
    requires severity == "error" || severity == "warning"
    requires k + |severity| + 1 <= |line| && line[k..k + |severity| + 1] == severity + ":"
    ensures SeverityHeader(line, n, k) == Some(Header(n, severity, k + |severity| + 1))
  {
    if severity == "error" {
      assert severity + ":" == "error:";
    } else {
      assert severity + ":" == "warning:";
      assert line[k] == 'w';
      assert !StartsAt(line, "error:", k);
    }
  }

  lemma {:induction false} DigitsEndIs(s: string, i: nat, j: nat)
    requires i <= j <= |s| && (forall k :: i <= k < j ==> IsDigit(s[k])) && (j < |s| ==> !IsDigit(s[j]))
    ensures DigitsEnd(s, i) == j
    decreases j - i
  {
    if i < j {
      DigitsEndIs(s, i + 1, j);
    }
  }

  lemma {:induction false} SpacesEndIs(s: string, i: nat, j: nat)
    requires i <= j <= |s| && (forall k :: i <= k < j ==> IsSpace(s[k])) && (j < |s| ==> !IsSpace(s[j]))
    ensures SpacesEnd(s, i) == j
    decreases j - i
  {
    if i < j {
      SpacesEndIs(s, i + 1, j);
    }
  }

  lemma FirstHeaderIs(line: string, i: nat, p: nat)
    requires i <= p < |line| && HeaderAt(line, p).Some?
    requires forall q :: i <= q < p ==> HeaderAt(line, q).None?
    ensures FirstHeader(line, i) == Some(p)
  {
    FirstWhereIs(HeaderMatches(line), i, |line|, p);
  }

  lemma TrimStartOfSpaced(m: string)
    requires m == [] || !IsSpace(m[0])
    ensures TrimStart(" " + m) == m
  {
    assert (" " + m)[1..] == m;
  }

  /** A message with no bracketed suffix is taken whole. */
  lemma ShortestIsAll(m: string)
    requires PlainMessage(m)
    ensures ShortestFrom(m, 0) == m
  {
    forall q | 0 <= q < |m| ensures !BracketTail(m[q..]) {
      var u := TrimStart(m[q..]);
      if u != [] {
        assert u[|u| - 1] == m[|m| - 1];
      }
    }
    ShortestReaches(m, 0, |m|);
  }

  /** With no `[` in the message, the lazy group stops exactly where the code begins. */
  lemma ShortestStopsAtCode(m: string, code: string)
    requires m != [] && !IsSpace(m[0]) && !IsSpace(m[|m| - 1]) && '[' !in m
    ensures ShortestFrom(m + " [" + code + "]", 0) == m
  {
    var t := m + " [" + code + "]";
    forall q | 0 <= q < |m| ensures !BracketTail(t[q..]) {
      var r := t[q..];
      var u := TrimStart(r);
      var w := |r| - |u|;
      assert r[|m| - q - 1] == m[|m| - 1];
      TrimStartStopsAt(r, |m| - q - 1);
      assert u[0] == r[w] == m[q + w];
    }
    var b := "[" + code + "]";
    assert t[|m|..] == " " + b;
    TrimStartOfSpaced(b);
    ShortestReaches(t, 0, |m|);
  }

  /** The lazy group ends at the first position, from `k` on, after which a code (or nothing) is left. */
  lemma {:induction false} ShortestReaches(t: string, k: nat, p: nat)
    requires k <= p <= |t| && (p == |t| || BracketTail(t[p..]))
    requires forall q :: k <= q < p ==> !BracketTail(t[q..])
    ensures ShortestFrom(t, k) == t[..p]
    decreases p - k
  {
    if k < p {
      ShortestReaches(t, k + 1, p);
    }
  }

  // ---------------------------------------------------------------------------
  // Processes and JSON
  // ---------------------------------------------------------------------------

  /** The outcome of `json.loads(stdout)`. */
  datatype Json<T> = Parsed(value: T) | Unparsable

  /** What `subprocess.run` returned, or the text of the exception raised while running the tool. */
  datatype Run<T> = Completed(returncode: int, stdout: T, stderr: string) | Raised(error: string)

  /** `d.get(key, fallback)`, a missing key being `None`. */
  function Get<T>(field: Option<T>, fallback: T): (v: T)
    ensures field.Some? ==> v == field.value
    ensures field.None? ==> v == fallback
  {
    if field.Some? then field.value else fallback
  }

  /** The entries every fallback path returns: line 0, severity `"error"`. */
  function ErrorEntry(message: string): Issue {
    Issue(0, message, "error")
  }

  predicate IsErrorEntry(i: Issue) {
    i.line == 0 && i.severity == "error"
  }

  // ---------------------------------------------------------------------------
  // bandit
  // ---------------------------------------------------------------------------

  /** One element of bandit's `results` array; a missing field is `None`. */
  datatype BanditResult = BanditResult(lineNumber: Option<int>, issueText: Option<string>, issueSeverity: Option<string>)

  /** Bandit's JSON report; `results` may be missing. */
  datatype BanditReport = BanditReport(results: Option<seq<BanditResult>>)

  /** The comprehension body for one bandit result. */
  function BanditIssue(r: BanditResult): (i: Issue)
    ensures i.line == Get(r.lineNumber, 0) && i.message == Get(r.issueText, "")
    ensures NoCapitals(i.severity)
    ensures SameIgnoringCase(i.severity, Get(r.issueSeverity, "low"))
  {
    var sev := Get(r.issueSeverity, "low");
    LowerHasNoCapitals(sev);
    LowerIsSame(sev);
    Issue(Get(r.lineNumber, 0), Get(r.issueText, ""), Lower(sev))
  }

  /** Lowercasing keeps the word up to case. */
  lemma LowerIsSame(s: string)
    ensures SameIgnoringCase(Lower(s), s)
  {
    forall i | 0 <= i < |s| ensures LowerChar(Lower(s)[i]) == LowerChar(s[i]) {
      assert Lower(s)[i] == LowerChar(s[i]);
    }
  }

  function BanditIssues(results: seq<BanditResult>): (r: seq<Issue>)
    ensures |r| == |results|
    ensures forall k :: 0 <= k < |results| ==> r[k] == BanditIssue(results[k])
  {
    if results == [] then [] else [BanditIssue(results[0])] + BanditIssues(results[1..])
  }

  /** `result.stderr.strip() or 'See logs'`. */
  function StderrOrSeeLogs(stderr: string): (t: string)
    ensures t != []
    ensures Trim(stderr) != [] ==> t == Trim(stderr)
  {
    var s := Trim(stderr);
    if s == [] then "See logs" else s
  }

  function BanditErrorMessage(code: int, stderr: string): string {
    "Bandit error (" + IntToString(code) + "): " + StderrOrSeeLogs(stderr)
  }

  /** Return codes 0 (no issues) and 1 (issues found) are bandit's successful runs. */
  predicate BanditSucceeded(code: int) {
    code == 0 || code == 1
  }

  /** `run_bandit(file_path)`. */
  function RunBandit(run: Run<Json<BanditReport>>): (r: seq<Issue>)
    ensures run.Completed? && BanditSucceeded(run.returncode) && run.stdout.Parsed? ==>
      r == BanditIssues(Get(run.stdout.value.results, []))
    ensures !(run.Completed? && BanditSucceeded(run.returncode) && run.stdout.Parsed?) ==>
      |r| == 1 && IsErrorEntry(r[0])
    ensures run.Raised? ==> r == [ErrorEntry("Bandit failed: " + run.error)]
    ensures run.Completed? && BanditSucceeded(run.returncode) && run.stdout.Unparsable? ==>
      r == [ErrorEntry("Bandit output parse error")]
    ensures run.Completed? && !BanditSucceeded(run.returncode) ==>
      r == [ErrorEntry(BanditErrorMessage(run.returncode, run.stderr))]
  {
    match run
    case Raised(e) => [ErrorEntry("Bandit failed: " + e)]
    case Completed(code, out, err) =>
      if BanditSucceeded(code) then
        match out
        case Parsed(report) => BanditIssues(Get(report.results, []))
        case Unparsable => [ErrorEntry("Bandit output parse error")]
      else [ErrorEntry(BanditErrorMessage(code, err))]
  }

  /** The return code can be read back from the error entry. */
  lemma BanditErrorNamesCode(code: int, stderr: string)
    ensures var m := BanditErrorMessage(code, stderr);
      var c := IntToString(code);
      |"Bandit error ("| + |c| + 3 <= |m|
      && ParseInt(m[|"Bandit error ("|..|"Bandit error ("| + |c|]) == Some(code)
      && m[|"Bandit error ("| + |c|..|"Bandit error ("| + |c| + 3] == "): "
  {
    var head := "Bandit error (";
    var c := IntToString(code);
    var tail := "): " + StderrOrSeeLogs(stderr);
    assert BanditErrorMessage(code, stderr) == head + c + tail;
    MiddleSlice(head, c, tail);
    assert tail[..3] == "): ";
    IntToStringRoundTrip(code);
  }

  /** The middle and the start of the last piece of a three-piece concatenation. */
  lemma MiddleSlice(a: string, b: string, c: string)
    requires |c| >= 3
    ensures (a + b + c)[|a|..|a| + |b|] == b && (a + b + c)[|a| + |b|..|a| + |b| + 3] == c[..3]
  {
  }

  /** A report without `results` and a result without fields fall back to the defaults. */
  lemma BanditDefaults()
    ensures RunBandit(Completed(0, Parsed(BanditReport(None)), "")) == []
    ensures BanditIssue(BanditResult(None, None, None)) == Issue(0, "", "low")
  {
    assert NoCapitals("low");
    LowerOfLowercase("low");
  }

  // ---------------------------------------------------------------------------
  // pylint
  // ---------------------------------------------------------------------------

  /** One element of pylint's JSON array; a missing field is `None`. */
  datatype PylintResult = PylintResult(line: Option<int>, message: Option<string>, kind: Option<string>)

  /** The comprehension body for one pylint result; its `type` becomes the severity. */
  function PylintIssue(r: PylintResult): (i: Issue)
    ensures i.line == Get(r.line, 0) && i.message == Get(r.message, "")
    ensures NoCapitals(i.severity)
    ensures SameIgnoringCase(i.severity, Get(r.kind, "info"))
  {
    var sev := Get(r.kind, "info");
    LowerHasNoCapitals(sev);
    LowerIsSame(sev);
    Issue(Get(r.line, 0), Get(r.message, ""), Lower(sev))
  }

  function PylintIssues(results: seq<PylintResult>): (r: seq<Issue>)
    ensures |r| == |results|
    ensures forall k :: 0 <= k < |results| ==> r[k] == PylintIssue(results[k])
  {
    if results == [] then [] else [PylintIssue(results[0])] + PylintIssues(results[1..])
  }

  /** `run_pylint()`; the return code is not consulted. */
  function RunPylint(run: Run<Json<seq<PylintResult>>>): (r: seq<Issue>)
    ensures run.Completed? && Trim(run.stderr) == [] && run.stdout.Parsed? ==> r == PylintIssues(run.stdout.value)
    ensures !(run.Completed? && Trim(run.stderr) == [] && run.stdout.Parsed?) ==> |r| == 1 && IsErrorEntry(r[0])
    ensures run.Raised? ==> r == [ErrorEntry("Pylint crashed: " + run.error)]
    ensures run.Completed? && Trim(run.stderr) != [] ==> r == [ErrorEntry("Pylint: " + Trim(run.stderr))]
    ensures run.Completed? && Trim(run.stderr) == [] && run.stdout.Unparsable? ==>
      r == [ErrorEntry("Pylint output parse error")]
  {
    match run
    case Raised(e) => [ErrorEntry("Pylint crashed: " + e)]
    case Completed(_, out, err) =>
      if Trim(err) != [] then [ErrorEntry("Pylint: " + Trim(err))]
      else
        match out
        case Parsed(results) => PylintIssues(results)
        case Unparsable => [ErrorEntry("Pylint output parse error")]
  }

  /** Non-blank stderr decides the outcome whatever the return code and stdout. */
  lemma PylintStderrWins(code1: int, out1: Json<seq<PylintResult>>, code2: int, out2: Json<seq<PylintResult>>, stderr: string)
    requires Trim(stderr) != []
    ensures RunPylint(Completed(code1, out1, stderr)) == RunPylint(Completed(code2, out2, stderr))
  {
  }

  /** A result without fields falls back to the defaults. */
  lemma PylintDefaults()
    ensures PylintIssue(PylintResult(None, None, None)) == Issue(0, "", "info")
  {
    assert NoCapitals("info");
    LowerOfLowercase("info");
  }

  // ---------------------------------------------------------------------------
  // mypy as a tool; stderr is merged into stdout
  // ---------------------------------------------------------------------------

  /** What `run_mypy()` returns. */
  function MypyToolIssues(run: Run<string>): (r: seq<Issue>)
    ensures run.Completed? ==> r == MypyIssues(SplitLines(run.stdout))
    ensures run.Raised? ==> r == [ErrorEntry("Mypy failed: " + run.error)]
  {
    match run
    case Raised(e) => [ErrorEntry("Mypy failed: " + e)]
    case Completed(_, out, _) => MypyIssues(SplitLines(out))
  }

  /** `run_mypy()`, through the line parser. */
  method RunMypy(run: Run<string>) returns (r: seq<Issue>)
    ensures r == MypyToolIssues(run)
  {
    match run
    case Raised(e) =>
      r := [ErrorEntry("Mypy failed: " + e)];
    case Completed(_, out, _) =>
      r := ParseMypyOutput(out);
  }

  // ---------------------------------------------------------------------------
  // run_static_analysis
  // ---------------------------------------------------------------------------

  datatype Tool = Pylint | Mypy | Bandit

  /** The dictionary key of a tool. */
  function Key(t: Tool): (k: string)
    ensures k == "pylint" || k == "mypy" || k == "bandit"
  {
    match t
    case Pylint => "pylint"
    case Mypy => "mypy"
    case Bandit => "bandit"
  }

  lemma KeysDistinct(a: Tool, b: Tool)
    ensures Key(a) == Key(b) <==> a == b
  {
    if a != b {
      assert Key(a)[0] != Key(b)[0] || |Key(a)| != |Key(b)|;
    }
  }

  /** How `future.result(timeout=20)` ended. */
  datatype FutureEnd = Finished | TimedOut | Crashed(error: string)

  /** The dictionary value for a tool whose future ended as `end`, `issues` being what the tool returned. */
  function Entry(t: Tool, end: FutureEnd, issues: seq<Issue>): (r: seq<Issue>)
    ensures end.Finished? ==> r == issues
    ensures end.TimedOut? ==> r == [ErrorEntry(Key(t) + " timed out")]
    ensures end.Crashed? ==> r == [ErrorEntry(Key(t) + " failed: " + end.error)]
  {
    match end
    case Finished => issues
    case TimedOut => [ErrorEntry(Key(t) + " timed out")]
    case Crashed(e) => [ErrorEntry(Key(t) + " failed: " + e)]
  }

  /** The three runs the pool executed. */
  datatype Runs = Runs(pylint: Run<Json<seq<PylintResult>>>, mypy: Run<string>, bandit: Run<Json<BanditReport>>)

  function ToolIssues(t: Tool, runs: Runs): seq<Issue> {
    match t
    case Pylint => RunPylint(runs.pylint)
    case Mypy => MypyToolIssues(runs.mypy)
    case Bandit => RunBandit(runs.bandit)
  }

  /** Every value is either the tool's normalised list or a single error entry. */
  lemma EntryIsToolListOrError(t: Tool, end: FutureEnd, runs: Runs)
    ensures var r := Entry(t, end, ToolIssues(t, runs));
      r == ToolIssues(t, runs) || (|r| == 1 && IsErrorEntry(r[0]))
  {
  }

  /** `as_completed` yields every future exactly once. */
  predicate CompletionOrder(order: seq<Tool>) {
    |order| == 3 && Pylint in order && Mypy in order && Bandit in order
  }

  /** The dictionary with the three tools' keys. */
  function Table(pylint: seq<Issue>, mypy: seq<Issue>, bandit: seq<Issue>): (r: map<string, seq<Issue>>)
    ensures r.Keys == {"pylint", "mypy", "bandit"}
    ensures r[Key(Pylint)] == pylint && r[Key(Mypy)] == mypy && r[Key(Bandit)] == bandit
  {
    map["pylint" := pylint, "mypy" := mypy, "bandit" := bandit]
  }

  /** Writing a tool's key replaces that tool's value and keeps the other two. */
  lemma TableUpdate(pylint: seq<Issue>, mypy: seq<Issue>, bandit: seq<Issue>, t: Tool, v: seq<Issue>)
    ensures Table(pylint, mypy, bandit)[Key(t) := v]
         == Table(if t == Pylint then v else pylint, if t == Mypy then v else mypy, if t == Bandit then v else bandit)
  {
    var before := Table(pylint, mypy, bandit);
    var after := Table(if t == Pylint then v else pylint, if t == Mypy then v else mypy, if t == Bandit then v else bandit);
    forall k | k in after ensures before[Key(t) := v][k] == after[k] {
      KeysDistinct(t, Pylint);
      KeysDistinct(t, Mypy);
      KeysDistinct(t, Bandit);
    }
  }

  /** A tool's value once the tools in `done` have completed. */
  function Value(t: Tool, done: seq<Tool>, runs: Runs, ends: Tool -> FutureEnd): seq<Issue> {
    if t in done then Entry(t, ends(t), ToolIssues(t, runs)) else []
  }

  /** The dictionary once the tools in `done` have completed. */
  function Results(done: seq<Tool>, runs: Runs, ends: Tool -> FutureEnd): map<string, seq<Issue>> {
    Table(Value(Pylint, done, runs, ends), Value(Mypy, done, runs, ends), Value(Bandit, done, runs, ends))
  }

  /** One more completed future overwrites its own tool's key. */
  lemma ResultsStep(done: seq<Tool>, t: Tool, runs: Runs, ends: Tool -> FutureEnd)
    ensures Results(done + [t], runs, ends) == Results(done, runs, ends)[Key(t) := Entry(t, ends(t), ToolIssues(t, runs))]
  {
    TableUpdate(Value(Pylint, done, runs, ends), Value(Mypy, done, runs, ends), Value(Bandit, done, runs, ends),
                t, Entry(t, ends(t), ToolIssues(t, runs)));
    forall u ensures Value(u, done + [t], runs, ends) == if u == t then Entry(t, ends(t), ToolIssues(t, runs)) else Value(u, done, runs, ends) {
      assert u in done + [t] <==> u in done || u == t;
    }
  }

  /** Once every tool has completed, each key holds its tool's entry. */
  lemma ResultsComplete(order: seq<Tool>, runs: Runs, ends: Tool -> FutureEnd)
    requires CompletionOrder(order)
    ensures Results(order, runs, ends).Keys == {"pylint", "mypy", "bandit"}
    ensures forall t :: Results(order, runs, ends)[Key(t)] == Entry(t, ends(t), ToolIssues(t, runs))
  {
    forall t ensures Results(order, runs, ends)[Key(t)] == Entry(t, ends(t), ToolIssues(t, runs)) {
      match t
      case Pylint =>
      case Mypy =>
      case Bandit =>
    }
  }

  /** The function a pool worker runs for tool `t`. */
  method RunTool(t: Tool, runs: Runs) returns (issues: seq<Issue>)
    ensures issues == ToolIssues(t, runs)
  {
    match t {
      case Pylint => issues := RunPylint(runs.pylint);
      case Mypy => issues := RunMypy(runs.mypy);
      case Bandit => issues := RunBandit(runs.bandit);
    }
  }

  /**
   * `run_static_analysis(code)`: `results` starts with an empty list per tool, and each
   * future, in the order it completes, overwrites its own tool's key.
   */
  method RunStaticAnalysis(runs: Runs, order: seq<Tool>, ends: Tool -> FutureEnd) returns (results: map<string, seq<Issue>>)
    requires CompletionOrder(order)
    ensures results.Keys == {"pylint", "mypy", "bandit"}
    ensures forall t :: results[Key(t)] == Entry(t, ends(t), ToolIssues(t, runs))
  {
    results := map["pylint" := [], "mypy" := [], "bandit" := []];
    assert results == Results([], runs, ends);
    for i := 0 to |order|
      invariant results == Results(order[..i], runs, ends)
    {
      var t := order[i];
      var issues := RunTool(t, runs);
      ResultsStep(order[..i], t, runs, ends);
      results := results[Key(t) := Entry(t, ends(t), issues)];
      assert order[..i + 1] == order[..i] + [t];
    }
    assert order[..|order|] == order;
    ResultsComplete(order, runs, ends);
  }
}
