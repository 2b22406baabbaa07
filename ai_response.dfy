/**
 * The two text extractors the backend applies to the model's reply: `extract_code_block`
 * (the corrected code) and `extract_short_explanation` (the three-line Issue/Cause/Fix
 * summary). Each regular expression is written out as the scanner it amounts to.
 */
module AiResponse {
  import opened Wrappers
  import opened Strings

  const Fence: string := "```"
  const PythonOpener: string := "```python"

  // ---------------------------------------------------------------------------
  // Fenced blocks: re.findall(<opener> + r"\s*(.*?)\s*```", text, re.DOTALL)[0].strip()
  // ---------------------------------------------------------------------------

  /**
   * Where the first match of `<opener>\s*(.*?)\s*` + "```" lies: the block body runs
   * from the end of the first opener to the first fence at or after it. Since any later
   * opener is followed by no fence the first one misses, there is a match exactly when
   * some opener is followed by a fence.
   */
  function BlockSpan(text: string, opener: string): (r: Option<(nat, nat)>)
    ensures r.Some? ==> |opener| <= r.value.0 <= r.value.1 && r.value.1 + |Fence| <= |text|
  {
    match IndexOf(text, opener)
    case None => None
    case Some(p) =>
      match IndexFrom(text, Fence, p + |opener|)
      case None => None
      case Some(f) => Some((p + |opener|, f))
  }

  /** The block starts right after the first opener and ends at a fence. */
  lemma BlockAfterFirstOpener(text: string, opener: string)
    requires BlockSpan(text, opener).Some?
    ensures var span := BlockSpan(text, opener).value;
      IndexOf(text, opener) == Some(span.0 - |opener|)
      && StartsAt(text, opener, span.0 - |opener|) && StartsAt(text, Fence, span.1)
  {
  }

  /** The block body ends at the first fence after the opener. */
  lemma BlockEndsAtFirstFence(text: string, opener: string)
    requires BlockSpan(text, opener).Some?
    ensures var span := BlockSpan(text, opener).value;
      forall j :: span.0 <= j < span.1 ==> !StartsAt(text, Fence, j)
  {
    var p := IndexOf(text, opener).value;
    assert IndexFrom(text, Fence, p + |opener|).Some?;
  }

  /** There is no match exactly when no opener is followed, anywhere after it, by a fence. */
  lemma BlockSpanNone(text: string, opener: string)
    ensures BlockSpan(text, opener).None?
        <==> forall p: nat, f: nat :: StartsAt(text, opener, p) && p + |opener| <= f ==> !StartsAt(text, Fence, f)
  {
    match IndexOf(text, opener)
    case None =>
    case Some(p) =>
      match IndexFrom(text, Fence, p + |opener|)
      case None =>
        forall q: nat, f: nat | StartsAt(text, opener, q) && q + |opener| <= f ensures !StartsAt(text, Fence, f) {
          assert p <= q;
        }
      case Some(f) =>
  }

  /**
   * The stripped group of that first match. The greedy `\s*` and the lazy `(.*?)\s*`
   * only move whitespace between the group and its surroundings, so stripping the whole
   * span gives the same text.
   */
  function FencedBlock(text: string, opener: string): (r: Option<string>)
    ensures r.Some? <==> BlockSpan(text, opener).Some?
    ensures r.Some? ==> r.value == Trim(text[BlockSpan(text, opener).value.0..BlockSpan(text, opener).value.1])
  {
    var span := BlockSpan(text, opener);
    if span.None? then None
    else
      var blk := Trim(text[span.value.0..span.value.1]);
      Some(blk)
  }

  /** A block has no whitespace at either end. */
  lemma BlockIsStripped(text: string, opener: string)
    requires FencedBlock(text, opener).Some?
    ensures Trim(FencedBlock(text, opener).value) == FencedBlock(text, opener).value
  {
    var span := BlockSpan(text, opener).value;
    TrimTwice(text[span.0..span.1]);
  }

  /** A block never contains a fence: the lazy group stops at the first one. */
  lemma BlockHasNoFence(text: string, opener: string)
    requires FencedBlock(text, opener).Some?
    ensures !Contains(FencedBlock(text, opener).value, Fence)
  {
    var span := BlockSpan(text, opener).value;
    BlockEndsAtFirstFence(text, opener);
    TrimmedGapLacks(text, Fence, span.0, span.1);
  }

  /** Case 2's test: `any(keyword in block for keyword in [...])`. */
  predicate MentionsKeyword(block: string) {
    Contains(block, "def ") || Contains(block, "import ") || Contains(block, "class ") ||
    Contains(block, "print(") || Contains(block, "return ") || Contains(block, "if ")
  }

  // ---------------------------------------------------------------------------
  // Case 3: the line scanner
  // ---------------------------------------------------------------------------

  /** `line.startswith('```')`. */
  predicate IsFenceLine(line: string) {
    StartsWith(line, Fence)
  }

  /** The alternatives of `^\s*(def |class |import |from |if |for |while |try|except|print\(|return)`. */
  const CodeStarts: seq<string> := ["def ", "class ", "import ", "from ", "if ", "for ", "while ", "try", "except", "print(", "return"]

  /** `t` starts with one of `prefixes`. */
  predicate StartsWithAny(t: string, prefixes: seq<string>) {
    prefixes != [] && (StartsWith(t, prefixes[0]) || StartsWithAny(t, prefixes[1..]))
  }

  /** The regular expression's test: after leading whitespace, one of the alternatives. */
  predicate StartsLikeCode(line: string) {
    StartsWithAny(TrimStart(line), CodeStarts)
  }

  /** A non-empty line that is not a comment, contains `=` and does not end with `:`. */
  predicate AssignmentLike(line: string) {
    line != "" && !StartsWith(line, "#") && !StartsWith(line, "//") && '=' in line && !EndsWith(line, ":")
  }

  /** Whether a non-fence line outside a fence is kept: the regular expression or the assignment test. */
  predicate CodeLike(line: string) {
    StartsLikeCode(line) || AssignmentLike(line)
  }

  /** `[line.strip() for line in lines]`. */
  function Stripped(lines: seq<string>): (r: seq<string>)
    ensures |r| == |lines|
    ensures forall k :: 0 <= k < |lines| ==> r[k] == Trim(lines[k])
  {
    if lines == [] then [] else Stripped(lines[..|lines| - 1]) + [Trim(lines[|lines| - 1])]
  }

  /** `in_code_block` and `code_lines` after some lines of the scan. */
  datatype ScanState = ScanState(inCodeBlock: bool, codeLines: seq<string>)

  /*
   * The scan is written over its two line tests, `fence` (`line.startswith('```')`) and
   * `code` (the test for a line outside a fence); `Scan` below fixes them to the
   * backend's tests.
   */

  /** The loop body on one stripped line: a fence toggles, a kept line is appended. */
  function ScanStep(fence: string -> bool, code: string -> bool, st: ScanState, line: string): ScanState {
    if fence(line) then ScanState(!st.inCodeBlock, st.codeLines)
    else if st.inCodeBlock || code(line) then ScanState(st.inCodeBlock, st.codeLines + [line])
    else st
  }

  /** The scan over `lines`, from the state before the loop. */
  function ScanWith(fence: string -> bool, code: string -> bool, lines: seq<string>): ScanState {
    if lines == [] then ScanState(false, [])
    else ScanStep(fence, code, ScanWith(fence, code, lines[..|lines| - 1]), lines[|lines| - 1])
  }

  function Scan(lines: seq<string>): ScanState {
    ScanWith(IsFenceLine, CodeLike, lines)
  }

  /** The lines the scan appends to `code_lines`. */
  function Kept(lines: seq<string>): seq<string> {
    Scan(lines).codeLines
  }

  lemma ScanSnoc(fence: string -> bool, code: string -> bool, lines: seq<string>, line: string)
    ensures ScanWith(fence, code, lines + [line]) == ScanStep(fence, code, ScanWith(fence, code, lines), line)
  {
    assert (lines + [line])[..|lines|] == lines;
  }

  /** Reference definition: the number of fence lines in `lines`. */
  function FenceCount(fence: string -> bool, lines: seq<string>): nat
  {
    if lines == [] then 0
    else FenceCount(fence, lines[..|lines| - 1]) + (if fence(lines[|lines| - 1]) then 1 else 0)
  }

  /** `in_code_block` is on exactly when an odd number of fences was seen. */
  lemma {:induction false} ScanToggleParity(fence: string -> bool, code: string -> bool, lines: seq<string>)
    ensures ScanWith(fence, code, lines).inCodeBlock <==> FenceCount(fence, lines) % 2 == 1
  {
    if lines != [] {
      ScanToggleParity(fence, code, lines[..|lines| - 1]);
    }
  }

  /** Whether the scan keeps line `i`. */
  predicate KeptAt(fence: string -> bool, code: string -> bool, lines: seq<string>, i: nat)
    requires i < |lines|
  {
    !fence(lines[i]) && (ScanWith(fence, code, lines[..i]).inCodeBlock || code(lines[i]))
  }

  /** Whether a line is kept depends only on the lines up to it. */
  lemma KeptAtPrefix(fence: string -> bool, code: string -> bool, lines: seq<string>, n: nat)
    requires n <= |lines|
    ensures forall i :: 0 <= i < n ==> KeptAt(fence, code, lines[..n], i) == KeptAt(fence, code, lines, i)
  {
    forall i | 0 <= i < n ensures KeptAt(fence, code, lines[..n], i) == KeptAt(fence, code, lines, i) {
      assert lines[..n][..i] == lines[..i];
    }
  }

  /**
   * The positions the scan keeps, in increasing order: the kept lines are exactly the
   * lines at those positions, in input order, and a position is kept exactly when its
   * line is not a fence and is inside a fence or passes the code test.
   */
  function KeptPositions(fence: string -> bool, code: string -> bool, lines: seq<string>): (r: seq<nat>)
    ensures |r| == |ScanWith(fence, code, lines).codeLines|
    ensures forall k :: 0 <= k < |r| ==> r[k] < |lines| && ScanWith(fence, code, lines).codeLines[k] == lines[r[k]]
    ensures forall k, m :: 0 <= k < m < |r| ==> r[k] < r[m]
    ensures forall i :: 0 <= i < |lines| ==> (i in r <==> KeptAt(fence, code, lines, i))
  {
    if lines == [] then []
    else
      var n := |lines| - 1;
      var pre := KeptPositions(fence, code, lines[..n]);
      KeptAtPrefix(fence, code, lines, n);
      pre + (if KeptAt(fence, code, lines, n) then [n] else [])
  }

  /** Fence lines are never kept. */
  lemma {:induction false} KeptHasNoFence(fence: string -> bool, code: string -> bool, lines: seq<string>)
    ensures forall k :: 0 <= k < |ScanWith(fence, code, lines).codeLines| ==> !fence(ScanWith(fence, code, lines).codeLines[k])
  {
    if lines != [] {
      KeptHasNoFence(fence, code, lines[..|lines| - 1]);
    }
  }

  /**
   * Between an opening fence and its closing fence every line is kept, whatever it looks
   * like.
   */
  lemma {:induction false} FencedLinesKept(fence: string -> bool, code: string -> bool, pre: seq<string>, body: seq<string>)
    requires ScanWith(fence, code, pre).inCodeBlock
    requires forall k :: 0 <= k < |body| ==> !fence(body[k])
    ensures ScanWith(fence, code, pre + body) == ScanState(true, ScanWith(fence, code, pre).codeLines + body)
  {
    if body != [] {
      var init, last := body[..|body| - 1], body[|body| - 1];
      FencedLinesKept(fence, code, pre, init);
      assert pre + body == (pre + init) + [last];
      ScanSnoc(fence, code, pre + init, last);
      assert ScanWith(fence, code, pre).codeLines + body == (ScanWith(fence, code, pre).codeLines + init) + [last];
    } else {
      assert pre + body == pre;
    }
  }

  // ---------------------------------------------------------------------------
  // Final validation: re.search(r'\b(def|...|return)\b', code) or any of = : ( )
  // ---------------------------------------------------------------------------

  /** ASCII word characters, the `\w` of the word-boundary test. */
  predicate IsWordChar(c: char) {
    'a' <= c <= 'z' || 'A' <= c <= 'Z' || '0' <= c <= '9' || c == '_'
  }

  /** `w` occurs at `i` as a whole word. */
  predicate WordAt(s: string, w: string, i: nat) {
    StartsAt(s, w, i) && (i == 0 || !IsWordChar(s[i - 1])) && (i + |w| == |s| || !IsWordChar(s[i + |w|]))
  }

  predicate HasWord(s: string, w: string) {
    exists i :: 0 <= i <= |s| && WordAt(s, w, i)
  }

  predicate LooksLikePython(code: string) {
    HasWord(code, "def") || HasWord(code, "class") || HasWord(code, "import") || HasWord(code, "from") ||
    HasWord(code, "if") || HasWord(code, "for") || HasWord(code, "while") || HasWord(code, "try") ||
    HasWord(code, "except") || HasWord(code, "return") ||
    '=' in code || ':' in code || '(' in code || ')' in code
  }

  /** `'\n'.join(lines)`. */
  function JoinLines(lines: seq<string>): string {
    Join(lines, "\n")
  }

  /** `'\n'.join(code_lines).strip()` over the scan of the stripped text. */
  function ScanResult(t: string): (r: string)
    ensures Trim(r) == r
  {
    var joined := JoinLines(Kept(Stripped(SplitLines(t))));
    TrimTwice(joined);
    Trim(joined)
  }

  /** `extract_code_block(text)`; whichever case decides, the answer has no whitespace at either end. */
  function CodeBlockOf(text: string): (r: string)
    ensures Trim(r) == r
  {
    var t := Trim(text);
    match FencedBlock(t, PythonOpener)
    case Some(b) =>
      BlockIsStripped(t, PythonOpener);
      b
    case None =>
      var g := FencedBlock(t, Fence);
      if g.Some? && MentionsKeyword(g.value) then
        BlockIsStripped(t, Fence);
        g.value
      else
        var e := ScanResult(t);
        if LooksLikePython(e) then e else ""
  }

  method ExtractCodeBlock(text: string) returns (code: string)
    ensures code == CodeBlockOf(text)
  {
    var t := Trim(text);
    var pythonBlock := FencedBlock(t, PythonOpener);
    if pythonBlock.Some? {
      return pythonBlock.value;
    }
    var genericBlock := FencedBlock(t, Fence);
    if genericBlock.Some? && MentionsKeyword(genericBlock.value) {
      return genericBlock.value;
    }
    var codeLines := ScanLines(SplitLines(t));
    var extracted := Trim(JoinLines(codeLines));
    if LooksLikePython(extracted) {
      code := extracted;
    } else {
      code := "";
    }
  }

  /** The case-3 loop: strip each line, toggle on fences, collect the kept lines. */
  method ScanLines(lines: seq<string>) returns (codeLines: seq<string>)
    ensures codeLines == Kept(Stripped(lines))
  {
    codeLines := [];
    var inCodeBlock := false;
    var i := 0;
    while i < |lines|
      invariant 0 <= i <= |lines|
      invariant ScanState(inCodeBlock, codeLines) == Scan(Stripped(lines[..i]))
    {
      var line := Trim(lines[i]);
      ScanOneMore(lines, i);
      if IsFenceLine(line) {
        inCodeBlock := !inCodeBlock;
      } else if inCodeBlock || CodeLike(line) {
        codeLines := codeLines + [line];
      }
      i := i + 1;
    }
    assert lines[..|lines|] == lines;
  }

  /** The scan over the first `i + 1` stripped lines is one more step of the scan over the first `i`. */
  lemma ScanOneMore(lines: seq<string>, i: nat)
    requires i < |lines|
    ensures Scan(Stripped(lines[..i + 1])) == ScanStep(IsFenceLine, CodeLike, Scan(Stripped(lines[..i])), Trim(lines[i]))
  {
    assert lines[..i + 1] == lines[..i] + [lines[i]];
    StrippedSnoc(lines[..i], lines[i]);
    ScanSnoc(IsFenceLine, CodeLike, Stripped(lines[..i]), Trim(lines[i]));
  }

  lemma StrippedSnoc(lines: seq<string>, line: string)
    ensures Stripped(lines + [line]) == Stripped(lines) + [Trim(line)]
  {
    assert (lines + [line])[..|lines|] == lines;
  }

  /** A python block, when there is one, is the answer, and it holds no fence. */
  lemma PythonBlockWins(text: string)
    requires FencedBlock(Trim(text), PythonOpener).Some?
    ensures CodeBlockOf(text) == FencedBlock(Trim(text), PythonOpener).value
    ensures !Contains(CodeBlockOf(text), Fence)
  {
    BlockHasNoFence(Trim(text), PythonOpener);
  }

  /**
    * Without a python block, a generic block that mentions a keyword is the answer; one that
    * does not is passed over, and the validated line scan decides instead.
    */
  lemma GenericBlockNeedsKeyword(text: string)
    requires FencedBlock(Trim(text), PythonOpener).None?
    requires FencedBlock(Trim(text), Fence).Some?
    ensures MentionsKeyword(FencedBlock(Trim(text), Fence).value)
        ==> CodeBlockOf(text) == FencedBlock(Trim(text), Fence).value && !Contains(CodeBlockOf(text), Fence)
    ensures !MentionsKeyword(FencedBlock(Trim(text), Fence).value)
        ==> CodeBlockOf(text) == (if LooksLikePython(ScanResult(Trim(text))) then ScanResult(Trim(text)) else "")
  {
    BlockHasNoFence(Trim(text), Fence);
  }

  /**
    * When no fenced block is taken (no python block, and no generic block that mentions a
    * keyword), the answer is the scan when it looks like Python, else `""`.
    */
  lemma ScanIsValidated(text: string)
    requires FencedBlock(Trim(text), PythonOpener).None?
    requires FencedBlock(Trim(text), Fence).None? || !MentionsKeyword(FencedBlock(Trim(text), Fence).value)
    ensures CodeBlockOf(text) == "" || LooksLikePython(CodeBlockOf(text))
    ensures LooksLikePython(ScanResult(Trim(text))) ==> CodeBlockOf(text) == ScanResult(Trim(text))
    ensures !LooksLikePython(ScanResult(Trim(text))) ==> CodeBlockOf(text) == ""
  {
  }

  // ---------------------------------------------------------------------------
  // extract_short_explanation
  // ---------------------------------------------------------------------------

  /** The first `>` of `s`, provided no `\n` comes before it (`.` does not match `\n`). */
  function TagClose(s: string): (r: Option<nat>)
    ensures r.Some? ==> r.value < |s| && s[r.value] == '>' && '\n' !in s[..r.value]
    ensures r.Some? ==> forall j :: 0 <= j < r.value ==> s[j] != '>'
    ensures r.None? ==> forall j :: 0 <= j < |s| && s[j] == '>' ==> '\n' in s[..j]
  {
    if s == [] || s[0] == '\n' then None
    else if s[0] == '>' then Some(0)
    else match TagClose(s[1..])
      case None =>
        assert forall j :: 1 <= j < |s| ==> s[..j] == [s[0]] + s[1..][..j - 1];
        None
      case Some(j) =>
        assert s[..j + 1] == [s[0]] + s[1..][..j];
        Some(j + 1)
  }

  /** `re.sub(r"<.*?>", "", s)`: removes every tag that closes on its own line. */
  function StripTags(s: string): (r: string)
    ensures |r| <= |s|
    ensures '<' !in s ==> r == s
    decreases |s|
  {
    if s == [] then []
    else if s[0] == '<' && TagClose(s[1..]).Some? then StripTags(s[TagClose(s[1..]).value + 2..])
    else [s[0]] + StripTags(s[1..])
  }

  /** No `<` that a `>` closes on the same line is left. */
  predicate TagFree(s: string) {
    forall i :: 0 <= i < |s| && s[i] == '<' ==> TagClose(s[i + 1..]).None?
  }

  /** `TagClose` only looks at the first line, which stripping leaves alone when it has no `>`. */
  lemma {:induction false} StripKeepsOpenLine(s: string)
    requires TagClose(s).None?
    ensures TagClose(StripTags(s)).None?
    decreases |s|
  {
    if s != [] && s[0] != '\n' {
      assert s[0] != '>';
      assert TagClose(s[1..]).None?;
      StripKeepsOpenLine(s[1..]);
      assert StripTags(s) == [s[0]] + StripTags(s[1..]);
      assert ([s[0]] + StripTags(s[1..]))[1..] == StripTags(s[1..]);
    }
  }

  lemma {:induction false} StripTagsIsTagFree(s: string)
    ensures TagFree(StripTags(s))
    decreases |s|
  {
    if s != [] {
      if s[0] == '<' && TagClose(s[1..]).Some? {
        StripTagsIsTagFree(s[TagClose(s[1..]).value + 2..]);
      } else {
        var rest := StripTags(s[1..]);
        StripTagsIsTagFree(s[1..]);
        var r := [s[0]] + rest;
        assert StripTags(s) == r;
        if s[0] == '<' {
          StripKeepsOpenLine(s[1..]);
        }
        forall i | 0 <= i < |r| && r[i] == '<' ensures TagClose(r[i + 1..]).None? {
          if i == 0 {
            assert r[1..] == rest;
          } else {
            assert r[i + 1..] == rest[i..];
          }
        }
      }
    }
  }

  /** Text that is already tag-free is left unchanged, so stripping twice equals stripping once. */
  lemma {:induction false} TagFreeUnchanged(s: string)
    requires TagFree(s)
    ensures StripTags(s) == s
    decreases |s|
  {
    if s != [] {
      assert s[0] == '<' ==> TagClose(s[1..]).None?;
      forall i | 0 <= i < |s[1..]| && s[1..][i] == '<' ensures TagClose(s[1..][i + 1..]).None? {
        assert s[1..][i + 1..] == s[i + 2..];
      }
      TagFreeUnchanged(s[1..]);
    }
  }

  lemma StripTagsIdempotent(s: string)
    ensures StripTags(StripTags(s)) == StripTags(s)
  {
    StripTagsIsTagFree(s);
    TagFreeUnchanged(StripTags(s));
  }

  /** Text before the first `<` is kept as it is. */
  lemma {:induction false} StripTagsKeepsPlainPrefix(a: string, x: string)
    requires '<' !in a
    ensures StripTags(a + x) == a + StripTags(x)
    decreases |a|
  {
    if a != [] {
      assert a[0] in a && (a + x)[0] == a[0];
      assert (a + x)[1..] == a[1..] + x;
      assert StripTags(a + x) == [a[0]] + StripTags(a[1..] + x);
      StripTagsKeepsPlainPrefix(a[1..], x);
      assert a == [a[0]] + a[1..];
    } else {
      assert a + x == x;
    }
  }

  /** The lazy `.*?` closes a tag at the first `>` after the `<`. */
  lemma {:induction false} TagCloseAfter(t: string, rest: string)
    requires '>' !in t && '\n' !in t
    ensures TagClose(t + ">" + rest) == Some(|t|)
    decreases |t|
  {
    if t != [] {
      assert (t + ">" + rest)[1..] == t[1..] + ">" + rest;
      TagCloseAfter(t[1..], rest);
    }
  }

  /**
   * A tag that opens and closes on one line disappears together with its contents; the
   * text before it, which holds no `<`, and the text after it are stripped as they would
   * be on their own.
   */
  lemma StripTagsRemovesTag(a: string, t: string, b: string)
    requires '<' !in a && '>' !in t && '\n' !in t
    ensures StripTags(a + "<" + t + ">" + b) == a + StripTags(b)
  {
    var x := "<" + t + ">" + b;
    assert a + "<" + t + ">" + b == a + x;
    StripTagsKeepsPlainPrefix(a, x);
    StripTagsDropsTag(t, b);
  }

  lemma StripTagsDropsTag(t: string, b: string)
    requires '>' !in t && '\n' !in t
    ensures StripTags("<" + t + ">" + b) == StripTags(b)
  {
    var x := "<" + t + ">" + b;
    assert x[0] == '<' && x[1..] == t + ">" + b;
    TagCloseAfter(t, b);
    assert x[|t| + 2..] == b;
  }

  /*
   * The split is written over its step `next`: on a text holding a block, the piece
   * before the block and the text after it; on any other text, `None`. `SplitOutside`
   * below fixes the step to the first block starting with an opener.
   */

  /** Each step leaves a shorter text to split. */
  ghost predicate Shrinks(next: string -> Option<(string, string)>) {
    forall t :: next(t).Some? ==> |next(t).value.1| < |t|
  }

  /** The pieces: each step's piece in turn, then the text no step applies to. */
  function SplitWith(next: string -> Option<(string, string)>, s: string): (parts: seq<string>)
    requires Shrinks(next)
    ensures |parts| >= 1
    decreases |s|
  {
    match next(s)
    case None => [s]
    case Some((head, rest)) => [head] + SplitWith(next, rest)
  }

  /** Every piece but the last is the piece of some step. */
  lemma {:induction false} SplitWithPieces(next: string -> Option<(string, string)>, piece: string -> bool, s: string, k: nat)
    requires Shrinks(next) && forall t :: next(t).Some? ==> piece(next(t).value.0)
    requires k < |SplitWith(next, s)| - 1
    ensures piece(SplitWith(next, s)[k])
    decreases |s|
  {
    match next(s)
    case None =>
    case Some((head, rest)) =>
      if k > 0 {
        SplitWithPieces(next, piece, rest, k - 1);
      }
  }

  /** No step applies to the last piece. */
  lemma {:induction false} SplitWithLast(next: string -> Option<(string, string)>, s: string)
    requires Shrinks(next)
    ensures var parts := SplitWith(next, s); next(parts[|parts| - 1]).None?
    decreases |s|
  {
    match next(s)
    case None =>
    case Some((head, rest)) =>
      SplitWithLast(next, rest);
      var tail := SplitWith(next, rest);
      assert SplitWith(next, s)[|tail|] == tail[|tail| - 1];
  }

  /** `parts[0] + gaps[0] + parts[1] + ... + parts[n]`: the pieces with the removed texts put back between them. */
  function Interleave(parts: seq<string>, gaps: seq<string>): string
    requires |parts| == |gaps| + 1
  {
    if gaps == [] then parts[0] else parts[0] + gaps[0] + Interleave(parts[1..], gaps[1..])
  }

  /** A step that cuts `t` into the piece before, `gap(t)`, and the text after. */
  ghost predicate CutsOut(next: string -> Option<(string, string)>, gap: string -> string) {
    forall t :: next(t).Some? ==> t == next(t).value.0 + gap(t) + next(t).value.1
  }

  /** The texts the steps remove, as `gap` names them, in order: one between each two pieces. */
  function GapsWith(next: string -> Option<(string, string)>, gap: string -> string, s: string): (gaps: seq<string>)
    requires Shrinks(next)
    ensures |gaps| == |SplitWith(next, s)| - 1
    decreases |s|
  {
    match next(s)
    case None => []
    case Some((head, rest)) => [gap(s)] + GapsWith(next, gap, rest)
  }

  /** Putting the removed texts back between the pieces gives the text that was split. */
  lemma {:induction false} SplitWithRebuilds(next: string -> Option<(string, string)>, gap: string -> string, s: string)
    requires Shrinks(next) && CutsOut(next, gap)
    ensures Interleave(SplitWith(next, s), GapsWith(next, gap, s)) == s
    decreases |s|
  {
    match next(s)
    case None =>
    case Some((head, rest)) =>
      SplitWithRebuilds(next, gap, rest);
      var parts, gaps := SplitWith(next, s), GapsWith(next, gap, s);
      assert parts[0] == head && parts[1..] == SplitWith(next, rest);
      assert gaps[0] == gap(s) && gaps[1..] == GapsWith(next, gap, rest);
  }

  /** A property of every text a step removes holds of every removed text. */
  lemma {:induction false} GapsWithPieces(next: string -> Option<(string, string)>, gap: string -> string, isGap: string -> bool, s: string, k: nat)
    requires Shrinks(next) && forall t :: next(t).Some? ==> isGap(gap(t))
    requires k < |GapsWith(next, gap, s)|
    ensures isGap(GapsWith(next, gap, s)[k])
    decreases |s|
  {
    match next(s)
    case None =>
    case Some((head, rest)) =>
      if k > 0 {
        GapsWithPieces(next, gap, isGap, rest, k - 1);
      }
  }

  /** The step of `re.split(opener + ".*?```", ...)`: around the first block that starts with `opener`. */
  function NextBlock(opener: string): string -> Option<(string, string)> {
    t => var span := BlockSpan(t, opener);
      if span.None? then None else Some((t[..span.value.0 - |opener|], t[span.value.1 + |Fence|..]))
  }

  lemma NextBlockShrinks(opener: string)
    ensures Shrinks(NextBlock(opener))
  {
  }

  /**
   * `re.split(opener + ".*?```", s, flags=re.DOTALL)`: the pieces around each block that
   * starts with `opener`, the block removed.
   */
  function SplitOutside(s: string, opener: string): (parts: seq<string>)
    ensures |parts| >= 1
  {
    NextBlockShrinks(opener);
    SplitWith(NextBlock(opener), s)
  }

  /** `re.split(r"```python.*?```", s, flags=re.DOTALL)`. */
  function SplitOutsidePython(s: string): seq<string> {
    SplitOutside(s, PythonOpener)
  }

  /** The text `NextBlock(opener)` removes: the opener, the body and the closing fence. */
  function BlockText(opener: string): string -> string {
    t => var span := BlockSpan(t, opener);
      if span.None? then "" else t[span.value.0 - |opener|..span.value.1 + |Fence|]
  }

  /** A whole block: it starts with the opener, ends with a fence, and no fence starts in between. */
  predicate IsBlock(b: string, opener: string) {
    |opener| + |Fence| <= |b| && StartsAt(b, opener, 0) && StartsAt(b, Fence, |b| - |Fence|)
    && forall j :: |opener| <= j < |b| - |Fence| ==> !StartsAt(b, Fence, j)
  }

  /** A slice that runs from an opener to the first fence after it is a whole block. */
  lemma SliceIsBlock(t: string, opener: string, p: nat, f: nat)
    requires p + |opener| + |Fence| <= f <= |t|
    requires StartsAt(t, opener, p) && StartsAt(t, Fence, f - |Fence|)
    requires forall j :: p + |opener| <= j < f - |Fence| ==> !StartsAt(t, Fence, j)
    ensures IsBlock(t[p..f], opener)
  {
    var b := t[p..f];
    assert b[..|opener|] == t[p..p + |opener|];
    assert b[|b| - |Fence|..] == t[f - |Fence|..f];
    forall j | |opener| <= j < |b| - |Fence| ensures !StartsAt(b, Fence, j) {
      if StartsAt(b, Fence, j) {
        SliceOccurrence(t, Fence, p, f, j);
      }
    }
  }

  /** The first block of `t` with the text around it. */
  lemma BlockCut(t: string, opener: string)
    requires BlockSpan(t, opener).Some?
    ensures var span := BlockSpan(t, opener).value;
      var p, f := span.0 - |opener|, span.1 + |Fence|;
      t == t[..p] + t[p..f] + t[f..] && IsBlock(t[p..f], opener)
  {
    var span := BlockSpan(t, opener).value;
    var p, f := span.0 - |opener|, span.1 + |Fence|;
    assert t == t[..p] + t[p..f] + t[f..];
    BlockAfterFirstOpener(t, opener);
    BlockEndsAtFirstFence(t, opener);
    SliceIsBlock(t, opener, p, f);
  }

  /** Each step cuts the text into the piece before the first block, that block, and the rest. */
  lemma NextBlockCutsOut(opener: string)
    ensures CutsOut(NextBlock(opener), BlockText(opener))
    ensures forall t :: NextBlock(opener)(t).Some? ==> IsBlock(BlockText(opener)(t), opener)
  {
    forall t | NextBlock(opener)(t).Some?
      ensures t == NextBlock(opener)(t).value.0 + BlockText(opener)(t) + NextBlock(opener)(t).value.1
      ensures IsBlock(BlockText(opener)(t), opener)
    {
      BlockCut(t, opener);
    }
  }

  /** The blocks the split removes, in order. */
  function RemovedBlocks(s: string, opener: string): (blocks: seq<string>)
    ensures |blocks| == |SplitOutside(s, opener)| - 1
  {
    NextBlockShrinks(opener);
    GapsWith(NextBlock(opener), BlockText(opener), s)
  }

  /**
   * Nothing but whole blocks is dropped: each removed text is a block, and putting them
   * back between the pieces gives the text that was split.
   */
  lemma SplitOutsideRebuilds(s: string, opener: string)
    ensures Interleave(SplitOutside(s, opener), RemovedBlocks(s, opener)) == s
    ensures forall k :: 0 <= k < |RemovedBlocks(s, opener)| ==> IsBlock(RemovedBlocks(s, opener)[k], opener)
  {
    var next, gap := NextBlock(opener), BlockText(opener);
    NextBlockShrinks(opener);
    NextBlockCutsOut(opener);
    SplitWithRebuilds(next, gap, s);
    var isBlock := (b: string) => IsBlock(b, opener);
    forall k | 0 <= k < |RemovedBlocks(s, opener)| ensures IsBlock(RemovedBlocks(s, opener)[k], opener) {
      GapsWithPieces(next, gap, isBlock, s, k);
    }
  }

  /** The text before the first block holds no opener. */
  lemma FirstPieceHasNoOpener(s: string, opener: string)
    requires opener != [] && BlockSpan(s, opener).Some?
    ensures !Contains(s[..BlockSpan(s, opener).value.0 - |opener|], opener)
  {
    BlockAfterFirstOpener(s, opener);
    PrefixBeforeFirst(s, opener, BlockSpan(s, opener).value.0 - |opener|);
  }

  /** Every piece but the last holds no opener. */
  lemma SplitPiecesHaveNoOpener(s: string, opener: string)
    requires opener != []
    ensures var parts := SplitOutside(s, opener);
      forall k :: 0 <= k < |parts| - 1 ==> !Contains(parts[k], opener)
  {
    var next := NextBlock(opener);
    var lacksOpener := (t: string) => !Contains(t, opener);
    NextBlockShrinks(opener);
    forall t | next(t).Some? ensures lacksOpener(next(t).value.0) {
      FirstPieceHasNoOpener(t, opener);
    }
    forall k | 0 <= k < |SplitOutside(s, opener)| - 1 ensures !Contains(SplitOutside(s, opener)[k], opener) {
      SplitWithPieces(next, lacksOpener, s, k);
    }
  }

  /** The last piece holds no complete block. */
  lemma SplitLastHasNoBlock(s: string, opener: string)
    ensures var parts := SplitOutside(s, opener);
      BlockSpan(parts[|parts| - 1], opener).None?
  {
    var parts := SplitOutside(s, opener);
    NextBlockShrinks(opener);
    SplitWithLast(NextBlock(opener), s);
    NextBlockNone(parts[|parts| - 1], opener);
  }

  /** A text without a block is not split: it is the only piece. */
  lemma SplitOutsideWithoutBlock(s: string, opener: string)
    requires BlockSpan(s, opener).None?
    ensures SplitOutside(s, opener) == [s]
  {
    NextBlockNone(s, opener);
  }

  lemma NextBlockNone(t: string, opener: string)
    ensures NextBlock(opener)(t).None? <==> BlockSpan(t, opener).None?
  {
  }

  /** After the split no python block is left: the pieces before the last hold no opener, the last no complete block. */
  lemma SplitRemovesPythonBlocks(s: string)
    ensures var parts := SplitOutsidePython(s);
      (forall k :: 0 <= k < |parts| - 1 ==> !Contains(parts[k], PythonOpener))
      && BlockSpan(parts[|parts| - 1], PythonOpener).None?
  {
    SplitPiecesHaveNoOpener(s, PythonOpener);
    SplitLastHasNoBlock(s, PythonOpener);
  }

  /** `[f(line) for line in lines if f(line)]`. */
  function NonEmptyImages(f: string -> string, lines: seq<string>): (r: seq<string>)
    ensures |r| <= |lines|
  {
    if lines == [] then []
    else
      var n := |lines| - 1;
      NonEmptyImages(f, lines[..n]) + (if f(lines[n]) != "" then [f(lines[n])] else [])
  }

  /** The positions, increasing, of the lines whose image is kept. */
  function NonEmptyPositions(f: string -> string, lines: seq<string>): (pos: seq<nat>)
    ensures |pos| == |NonEmptyImages(f, lines)|
    ensures forall k :: 0 <= k < |pos| ==> pos[k] < |lines| && NonEmptyImages(f, lines)[k] == f(lines[pos[k]])
    ensures forall k, m :: 0 <= k < m < |pos| ==> pos[k] < pos[m]
    ensures forall i :: 0 <= i < |lines| ==> (i in pos <==> f(lines[i]) != "")
  {
    if lines == [] then []
    else
      var n := |lines| - 1;
      var pre := NonEmptyPositions(f, lines[..n]);
      assert NonEmptyImages(f, lines) == NonEmptyImages(f, lines[..n]) + (if f(lines[n]) != "" then [f(lines[n])] else []);
      pre + (if f(lines[n]) != "" then [n] else [])
  }

  /** `[line.strip() for line in lines if line.strip()]`. */
  function NonBlank(lines: seq<string>): (r: seq<string>)
    ensures |r| <= |lines|
  {
    NonEmptyImages(Trim, lines)
  }

  /**
   * The comprehension keeps exactly the lines that strip to something, stripped and in
   * their order: `pos` lists, increasing, the positions of the lines kept.
   */
  lemma NonBlankPositions(lines: seq<string>) returns (pos: seq<nat>)
    ensures |pos| == |NonBlank(lines)|
    ensures forall k :: 0 <= k < |pos| ==> pos[k] < |lines| && NonBlank(lines)[k] == Trim(lines[pos[k]])
    ensures forall k, m :: 0 <= k < m < |pos| ==> pos[k] < pos[m]
    ensures forall i :: 0 <= i < |lines| ==> (i in pos <==> Trim(lines[i]) != "")
  {
    pos := NonEmptyPositions(Trim, lines);
  }

  /** Every line kept is non-empty, and none holds a line boundary when the input lines hold none. */
  lemma NonBlankOnOneLine(lines: seq<string>)
    requires forall k :: 0 <= k < |lines| ==> NoLineBreak(lines[k])
    ensures forall k :: 0 <= k < |NonBlank(lines)| ==> NonBlank(lines)[k] != "" && NoLineBreak(NonBlank(lines)[k])
  {
    var pos := NonBlankPositions(lines);
    forall k | 0 <= k < |pos| ensures NonBlank(lines)[k] != "" && NoLineBreak(NonBlank(lines)[k]) {
      assert pos[k] in pos;
      TrimNoLineBreak(lines[pos[k]]);
    }
  }

  /** The non-blank stripped lines of one piece. */
  function NonBlankLines(part: string): seq<string>
  {
    NonBlank(SplitLines(Trim(part)))
  }

  lemma NonBlankLinesOnOneLine(part: string)
    ensures forall k :: 0 <= k < |NonBlankLines(part)| ==> NonBlankLines(part)[k] != "" && NoLineBreak(NonBlankLines(part)[k])
  {
    NonBlankOnOneLine(SplitLines(Trim(part)));
  }

  /** The three slots the loop fills. */
  datatype Slots = Slots(issue: string, cause: string, fix: string)

  predicate MentionsProblem(line: string) {
    var l := Lower(line);
    Contains(l, "problem") || Contains(l, "bug") || Contains(l, "error")
  }

  predicate MentionsCause(line: string) {
    var l := Lower(line);
    Contains(l, "because") || Contains(l, "due to")
  }

  predicate MentionsFix(line: string) {
    var l := Lower(line);
    Contains(l, "fix") || Contains(l, "solution") || Contains(l, "change")
  }

  /**
   * One iteration of the slot loop. At most one slot changes, only an empty one, and it
   * receives the line; causes and fixes need their keywords, and a problem line goes to
   * an empty issue slot before anything else is considered.
   */
  function Step(st: Slots, line: string): (r: Slots)
    ensures r == st || r == st.(issue := line) || r == st.(cause := line) || r == st.(fix := line)
    ensures st.issue != "" ==> r.issue == st.issue
    ensures st.cause != "" ==> r.cause == st.cause
    ensures st.fix != "" ==> r.fix == st.fix
    ensures r.cause != st.cause ==> MentionsCause(line)
    ensures r.fix != st.fix ==> MentionsFix(line)
    ensures st.issue == "" && MentionsProblem(line) ==> r.issue == line
    ensures !(st.issue == "" && MentionsProblem(line)) && st.cause == "" && MentionsCause(line) ==> r.cause == line
    ensures !(st.issue == "" && MentionsProblem(line)) && !(st.cause == "" && MentionsCause(line)) && st.fix == "" && MentionsFix(line)
      ==> r.fix == line
    ensures st.issue == "" && !(st.cause == "" && MentionsCause(line)) && !(st.fix == "" && MentionsFix(line)) ==> r.issue == line
    ensures st.issue == "" && line != "" ==> r != st
  {
    if st.issue == "" && MentionsProblem(line) then st.(issue := line)
    else if st.cause == "" && MentionsCause(line) then st.(cause := line)
    else if st.fix == "" && MentionsFix(line) then st.(fix := line)
    else if st.issue == "" then st.(issue := line)
    else st
  }

  const NoSlots: Slots := Slots("", "", "")

  /** The slots after the loop has run over `lines`. */
  function SlotsOf(lines: seq<string>): Slots
  {
    if lines == [] then NoSlots
    else Step(SlotsOf(lines[..|lines| - 1]), lines[|lines| - 1])
  }

  /** A slot, once set, never changes. */
  lemma {:induction false} SlotsSettle(lines: seq<string>, i: nat)
    requires i <= |lines|
    ensures SlotsOf(lines[..i]).issue != "" ==> SlotsOf(lines).issue == SlotsOf(lines[..i]).issue
    ensures SlotsOf(lines[..i]).cause != "" ==> SlotsOf(lines).cause == SlotsOf(lines[..i]).cause
    ensures SlotsOf(lines[..i]).fix != "" ==> SlotsOf(lines).fix == SlotsOf(lines[..i]).fix
    decreases |lines| - i
  {
    if i == |lines| {
      assert lines[..i] == lines;
    } else {
      var init := lines[..|lines| - 1];
      assert init[..i] == lines[..i];
      SlotsSettle(init, i);
    }
  }

  /** Every set slot holds one of the lines; a cause and a fix carry their keywords. */
  lemma {:induction false} SlotsComeFromLines(lines: seq<string>)
    ensures SlotsOf(lines).issue != "" ==> SlotsOf(lines).issue in lines
    ensures SlotsOf(lines).cause != "" ==> SlotsOf(lines).cause in lines && MentionsCause(SlotsOf(lines).cause)
    ensures SlotsOf(lines).fix != "" ==> SlotsOf(lines).fix in lines && MentionsFix(SlotsOf(lines).fix)
  {
    if lines != [] {
      var init := lines[..|lines| - 1];
      SlotsComeFromLines(init);
      assert lines == init + [lines[|lines| - 1]];
    }
  }

  /*
   * Which line ends up in each slot. The loop is written over its step; `takes(st, line)`
   * says whether the line goes into an empty slot when the loop reaches it with the slots
   * `st`. A slot holds the first line that it takes, or stays empty when it takes none.
   */

  /** The slots after running `step` over `lines` from empty slots. */
  function RunSteps(step: (Slots, string) -> Slots, lines: seq<string>): Slots
  {
    if lines == [] then NoSlots
    else step(RunSteps(step, lines[..|lines| - 1]), lines[|lines| - 1])
  }

  lemma {:induction false} SlotsOfRunsStep(lines: seq<string>)
    ensures SlotsOf(lines) == RunSteps(Step, lines)
  {
    if lines != [] {
      SlotsOfRunsStep(lines[..|lines| - 1]);
    }
  }

  /** The line at `i` goes into the slot, given the slots the loop has filled before it. */
  ghost predicate TakenAt(step: (Slots, string) -> Slots, takes: (Slots, string) -> bool, lines: seq<string>, i: nat)
    requires i < |lines|
  {
    takes(RunSteps(step, lines[..i]), lines[i])
  }

  /** The line at `i` is the first line the slot takes. */
  ghost predicate FirstTakenAt(step: (Slots, string) -> Slots, takes: (Slots, string) -> bool, lines: seq<string>, i: nat)
    requires i < |lines|
  {
    TakenAt(step, takes, lines, i) && forall j :: 0 <= j < i ==> !TakenAt(step, takes, lines, j)
  }

  /** A slot that `step` fills, when empty, with exactly the lines `takes` accepts, and never changes once set. */
  ghost predicate FilledOnceBy(step: (Slots, string) -> Slots, slot: Slots -> string, takes: (Slots, string) -> bool) {
    slot(NoSlots) == ""
    && forall st: Slots, line: string ::
      (slot(st) != "" ==> slot(step(st, line)) == slot(st))
      && (slot(st) == "" ==> slot(step(st, line)) == (if takes(st, line) then line else ""))
      && (takes(st, line) ==> line != "")
  }

  lemma {:induction false} FirstTakenLine(step: (Slots, string) -> Slots, slot: Slots -> string, takes: (Slots, string) -> bool, lines: seq<string>)
    requires FilledOnceBy(step, slot, takes)
    ensures slot(RunSteps(step, lines)) == "" <==> forall i :: 0 <= i < |lines| ==> !TakenAt(step, takes, lines, i)
    ensures forall i :: 0 <= i < |lines| && FirstTakenAt(step, takes, lines, i) ==> slot(RunSteps(step, lines)) == lines[i]
  {
    if lines != [] {
      var n := |lines| - 1;
      var init := lines[..n];
      FirstTakenLine(step, slot, takes, init);
      forall i | 0 <= i < n ensures TakenAt(step, takes, init, i) == TakenAt(step, takes, lines, i) {
        assert init[..i] == lines[..i];
      }
      var st := RunSteps(step, init);
      assert RunSteps(step, lines) == step(st, lines[n]);
      assert TakenAt(step, takes, lines, n) == takes(st, lines[n]);
      if slot(st) != "" {
        var i :| 0 <= i < n && TakenAt(step, takes, init, i);
        assert TakenAt(step, takes, lines, i);
        forall i | 0 <= i < |lines| && FirstTakenAt(step, takes, lines, i) ensures slot(RunSteps(step, lines)) == lines[i] {
          assert i < n && FirstTakenAt(step, takes, init, i);
        }
      } else {
        forall i | 0 <= i < |lines| && FirstTakenAt(step, takes, lines, i) ensures slot(RunSteps(step, lines)) == lines[i] {
          assert i == n;
        }
      }
    }
  }

  /** The issue takes a problem line, or a non-empty line that neither the cause nor the fix takes. */
  predicate TakesIssue(st: Slots, line: string) {
    line != "" && (MentionsProblem(line) || (!(st.cause == "" && MentionsCause(line)) && !(st.fix == "" && MentionsFix(line))))
  }

  /** The cause takes a cause line that the issue does not take first. */
  predicate TakesCause(st: Slots, line: string) {
    !(st.issue == "" && MentionsProblem(line)) && MentionsCause(line)
  }

  /** The fix takes a fix line that neither the issue nor the cause takes first. */
  predicate TakesFix(st: Slots, line: string) {
    !(st.issue == "" && MentionsProblem(line)) && !(st.cause == "" && MentionsCause(line)) && MentionsFix(line)
  }

  lemma MentionsNonEmpty(line: string)
    ensures MentionsProblem(line) || MentionsCause(line) || MentionsFix(line) ==> line != ""
  {
    if line == "" {
      assert Lower(line) == "";
      assert !Contains("", "problem") && !Contains("", "bug") && !Contains("", "error");
      assert !Contains("", "because") && !Contains("", "due to");
      assert !Contains("", "fix") && !Contains("", "solution") && !Contains("", "change");
    }
  }

  lemma SlotsFilledOnce()
    ensures FilledOnceBy(Step, (s: Slots) => s.issue, TakesIssue)
    ensures FilledOnceBy(Step, (s: Slots) => s.cause, TakesCause)
    ensures FilledOnceBy(Step, (s: Slots) => s.fix, TakesFix)
  {
    forall line: string {
      MentionsNonEmpty(line);
    }
  }

  /**
   * The issue is the first line that mentions a problem or that neither the cause nor the
   * fix takes; the cause the first line mentioning a cause that the issue does not take;
   * the fix the first line mentioning a fix that neither takes. A slot no line qualifies
   * for stays empty.
   */
  lemma SlotsAreFirstTaken(lines: seq<string>)
    ensures SlotsOf(lines).issue == "" <==> forall i :: 0 <= i < |lines| ==> !TakenAt(Step, TakesIssue, lines, i)
    ensures forall i :: 0 <= i < |lines| && FirstTakenAt(Step, TakesIssue, lines, i) ==> SlotsOf(lines).issue == lines[i]
    ensures SlotsOf(lines).cause == "" <==> forall i :: 0 <= i < |lines| ==> !TakenAt(Step, TakesCause, lines, i)
    ensures forall i :: 0 <= i < |lines| && FirstTakenAt(Step, TakesCause, lines, i) ==> SlotsOf(lines).cause == lines[i]
    ensures SlotsOf(lines).fix == "" <==> forall i :: 0 <= i < |lines| ==> !TakenAt(Step, TakesFix, lines, i)
    ensures forall i :: 0 <= i < |lines| && FirstTakenAt(Step, TakesFix, lines, i) ==> SlotsOf(lines).fix == lines[i]
  {
    SlotsFilledOnce();
    SlotsOfRunsStep(lines);
    FirstTakenLine(Step, (s: Slots) => s.issue, TakesIssue, lines);
    FirstTakenLine(Step, (s: Slots) => s.cause, TakesCause, lines);
    FirstTakenLine(Step, (s: Slots) => s.fix, TakesFix, lines);
  }

  /** A first line that mentions a problem is the issue, whatever follows. */
  lemma FirstProblemLineIsIssue(lines: seq<string>)
    requires lines != [] && MentionsProblem(lines[0])
    ensures SlotsOf(lines).issue == lines[0]
  {
    assert lines[..1][..0] == [];
    assert SlotsOf(lines[..1]) == Step(NoSlots, lines[0]);
    SlotsSettle(lines, 1);
  }

  /** The inner loop, with the three variables of the source. */
  method FillSlots(lines: seq<string>) returns (st: Slots)
    ensures st == SlotsOf(lines)
  {
    var issue, cause, fix := "", "", "";
    var i := 0;
    while i < |lines|
      invariant 0 <= i <= |lines|
      invariant Slots(issue, cause, fix) == SlotsOf(lines[..i])
    {
      var line := lines[i];
      assert lines[..i + 1][..i] == lines[..i];
      if issue == "" && MentionsProblem(line) {
        issue := line;
      } else if cause == "" && MentionsCause(line) {
        cause := line;
      } else if fix == "" && MentionsFix(line) {
        fix := line;
      } else if issue == "" {
        issue := line;
      }
      i := i + 1;
    }
    assert lines[..|lines|] == lines;
    st := Slots(issue, cause, fix);
  }

  function OrDefault(slot: string, fallback: string): string {
    if slot == "" then fallback else slot
  }

  function IssueText(st: Slots): string { OrDefault(st.issue, "Not clearly stated.") }
  function CauseText(st: Slots): string { OrDefault(st.cause, "Not explicitly explained.") }
  function FixText(st: Slots): string { OrDefault(st.fix, "Fix applied as per AI.") }

  /** The f-string that formats the three slots. */
  function Format(st: Slots): string {
    ("Issue: " + IssueText(st)) + "\n" + ("Cause: " + CauseText(st)) + "\n" + ("Fix: " + FixText(st))
  }

  /** `"Issue: Not found.\nCause: Not found.\nFix: Not found."`, the same three lines with every slot "Not found.". */
  const NotFoundSlots: Slots := Slots("Not found.", "Not found.", "Not found.")
  const NotFound: string := Format(NotFoundSlots)

  /** The non-blank lines of every piece, in order. */
  function LinesOfParts(parts: seq<string>): (r: seq<seq<string>>)
    ensures |r| == |parts|
    ensures forall k :: 0 <= k < |parts| ==> r[k] == NonBlankLines(parts[k])
  {
    if parts == [] then [] else [NonBlankLines(parts[0])] + LinesOfParts(parts[1..])
  }

  /** The position of the first non-empty entry at or after `i`, if there is one. */
  function FirstNonEmpty(pieces: seq<seq<string>>, i: nat): (r: Option<nat>)
    requires i <= |pieces|
    ensures r.Some? ==> i <= r.value < |pieces| && pieces[r.value] != []
    ensures r.Some? ==> forall j :: i <= j < r.value ==> pieces[j] == []
    ensures r.None? <==> forall j :: i <= j < |pieces| ==> pieces[j] == []
    decreases |pieces| - i
  {
    if i == |pieces| then None
    else if pieces[i] != [] then Some(i)
    else FirstNonEmpty(pieces, i + 1)
  }

  /** The piece at `k` is the first with a non-blank line. */
  predicate FirstUsable(parts: seq<string>, k: nat) {
    k < |parts| && NonBlankLines(parts[k]) != [] && forall j :: 0 <= j < k ==> NonBlankLines(parts[j]) == []
  }

  /**
   * The slots the explanation is formatted from, given the pieces of the split reply:
   * "Not found." everywhere when no piece has a non-blank line, otherwise the slots of
   * the first piece that has one.
   */
  function PieceSlots(parts: seq<string>): (st: Slots)
    ensures (forall k :: 0 <= k < |parts| ==> NonBlankLines(parts[k]) == []) ==> st == NotFoundSlots
    ensures forall k: nat :: FirstUsable(parts, k) ==> st == SlotsOf(NonBlankLines(parts[k]))
  {
    var pieces := LinesOfParts(parts);
    FirstNonEmptyIsFirstUsable(parts);
    FirstNonEmptyNone(parts);
    match FirstNonEmpty(pieces, 0)
    case None => NotFoundSlots
    case Some(k) => SlotsOf(pieces[k])
  }

  /** The search stops at the first usable piece. */
  lemma FirstNonEmptyIsFirstUsable(parts: seq<string>)
    ensures forall k: nat :: FirstUsable(parts, k) ==> FirstNonEmpty(LinesOfParts(parts), 0) == Some(k)
  {
    var pieces := LinesOfParts(parts);
    forall k: nat | FirstUsable(parts, k) ensures FirstNonEmpty(pieces, 0) == Some(k) {
      assert forall j :: 0 <= j < k ==> pieces[j] == [];
      FirstNonEmptyAt(pieces, k);
    }
  }

  /** The search finds nothing when no piece is usable. */
  lemma FirstNonEmptyNone(parts: seq<string>)
    ensures (forall k :: 0 <= k < |parts| ==> NonBlankLines(parts[k]) == []) ==> FirstNonEmpty(LinesOfParts(parts), 0).None?
  {
    var pieces := LinesOfParts(parts);
    if forall k :: 0 <= k < |parts| ==> NonBlankLines(parts[k]) == [] {
      assert forall j :: 0 <= j < |pieces| ==> pieces[j] == [];
    }
  }

  lemma FirstNonEmptyAt(pieces: seq<seq<string>>, k: nat)
    requires k < |pieces| && pieces[k] != [] && forall j :: 0 <= j < k ==> pieces[j] == []
    ensures FirstNonEmpty(pieces, 0) == Some(k)
  {
  }

  /** The slots of the first usable piece of the tag-stripped reply, split around its python blocks. */
  function ExplanationSlots(text: string): Slots {
    PieceSlots(SplitOutsidePython(StripTags(text)))
  }

  /** `extract_short_explanation(text)`. */
  function ShortExplanationOf(text: string): string {
    Format(ExplanationSlots(text))
  }

  /** One step of the search: a piece without lines is skipped, one with lines is the answer. */
  lemma FirstNonEmptyStep(parts: seq<string>, i: nat)
    requires i < |parts|
    ensures NonBlankLines(parts[i]) == [] ==> FirstNonEmpty(LinesOfParts(parts), i) == FirstNonEmpty(LinesOfParts(parts), i + 1)
    ensures NonBlankLines(parts[i]) != [] ==> FirstNonEmpty(LinesOfParts(parts), i) == Some(i)
  {
  }

  method ExtractShortExplanation(text: string) returns (explanation: string)
    ensures explanation == ShortExplanationOf(text)
  {
    var cleaned := StripTags(text);
    var parts := SplitOutsidePython(cleaned);
    var i := 0;
    while i < |parts|
      invariant 0 <= i <= |parts|
      invariant FirstNonEmpty(LinesOfParts(parts), 0) == FirstNonEmpty(LinesOfParts(parts), i)
    {
      var lines := NonBlankLines(parts[i]);
      FirstNonEmptyStep(parts, i);
      if lines != [] {
        var st := FillSlots(lines);
        return Format(st);
      }
      i := i + 1;
    }
    return NotFound;
  }

  /** A slot never holds a line boundary: it is empty, a line, or a default text. */
  predicate SlotsOnOneLine(st: Slots) {
    NoLineBreak(st.issue) && NoLineBreak(st.cause) && NoLineBreak(st.fix)
  }

  lemma {:induction false} SlotsOfLinesOnOneLine(lines: seq<string>)
    requires forall k :: 0 <= k < |lines| ==> NoLineBreak(lines[k])
    ensures SlotsOnOneLine(SlotsOf(lines))
  {
    if lines != [] {
      SlotsOfLinesOnOneLine(lines[..|lines| - 1]);
    }
  }

  lemma NoLineBreakAppend(a: string, b: string)
    requires NoLineBreak(a) && NoLineBreak(b)
    ensures NoLineBreak(a + b)
  {
    forall i | 0 <= i < |a + b| ensures !IsLineBreak((a + b)[i]) {
      if i >= |a| {
        assert (a + b)[i] == b[i - |a|];
      }
    }
  }

  lemma ThreeLines(a: string, b: string, c: string)
    requires a != "" && NoLineBreak(a) && NoLineBreak(b) && c != "" && NoLineBreak(c)
    ensures SplitLines(a + "\n" + b + "\n" + c) == [a, b, c]
  {
    var tail := b + "\n" + c;
    assert a + "\n" + b + "\n" + c == a + "\n" + tail;
    SplitLinesCons(a, tail);
    SplitLinesCons(b, c);
    SplitLinesSingle(c);
    assert SplitLines(tail) == [b, c];
  }

  lemma LabelledLine(head: string, slot: string, fallback: string)
    requires head != "" && NoLineBreak(head) && NoLineBreak(slot) && NoLineBreak(fallback)
    ensures var line := head + OrDefault(slot, fallback); line != "" && NoLineBreak(line)
  {
    NoLineBreakAppend(head, OrDefault(slot, fallback));
  }

  lemma FixedTextsOnOneLine()
    ensures NoLineBreak("Issue: ") && NoLineBreak("Not clearly stated.")
    ensures NoLineBreak("Cause: ") && NoLineBreak("Not explicitly explained.")
    ensures NoLineBreak("Fix: ") && NoLineBreak("Fix applied as per AI.")
  {
  }

  /** The formatted text is exactly three lines, headed Issue, Cause and Fix. */
  lemma FormatLines(st: Slots)
    requires SlotsOnOneLine(st)
    ensures SplitLines(Format(st)) == ["Issue: " + IssueText(st), "Cause: " + CauseText(st), "Fix: " + FixText(st)]
  {
    FixedTextsOnOneLine();
    LabelledLine("Issue: ", st.issue, "Not clearly stated.");
    LabelledLine("Cause: ", st.cause, "Not explicitly explained.");
    LabelledLine("Fix: ", st.fix, "Fix applied as per AI.");
    ThreeLines("Issue: " + IssueText(st), "Cause: " + CauseText(st), "Fix: " + FixText(st));
  }

  /** Every explanation has three lines, each starting with its label and carrying text. */
  lemma ExplanationSlotsOnOneLine(text: string)
    ensures SlotsOnOneLine(ExplanationSlots(text))
  {
    var parts := SplitOutsidePython(StripTags(text));
    match FirstNonEmpty(LinesOfParts(parts), 0)
    case None =>
      NotFoundOnOneLine();
    case Some(k) =>
      NonBlankLinesOnOneLine(parts[k]);
      SlotsOfLinesOnOneLine(NonBlankLines(parts[k]));
  }

  lemma NotFoundOnOneLine()
    ensures SlotsOnOneLine(NotFoundSlots)
  {
    assert NoLineBreak("Not found.");
  }

  lemma ShortExplanationHasThreeLines(text: string)
    ensures var st := ExplanationSlots(text);
      SplitLines(ShortExplanationOf(text))
        == ["Issue: " + IssueText(st), "Cause: " + CauseText(st), "Fix: " + FixText(st)]
      && IssueText(st) != "" && CauseText(st) != "" && FixText(st) != ""
  {
    var st := ExplanationSlots(text);
    ExplanationSlotsOnOneLine(text);
    FormatLines(st);
  }
}
