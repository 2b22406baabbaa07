/**
 * The explanation tab: `parseExplanation` splits the explanation text on the labels
 * `Issue:`, `Cause:` and `Fix:` (JavaScript `split` with a capturing group, then
 * `filter(Boolean)`) and pairs every label with the piece that follows it.
 */
module ExplanationPanel {
  import opened Wrappers
  import opened Strings

  datatype Label = Issue | Cause | Fix

  function LabelText(l: Label): string {
    match l
    case Issue => "Issue:"
    case Cause => "Cause:"
    case Fix => "Fix:"
  }

  /** The section type the panel derives from a label: colon removed, lower case. */
  function KindName(l: Label): string {
    match l
    case Issue => "issue"
    case Cause => "cause"
    case Fix => "fix"
  }

  /** The label the pattern `Issue:|Cause:|Fix:` matches at the start of `s`, if any. */
  function LabelAt(s: string): (r: Option<Label>)
  {
    if "Issue:" <= s then Some(Issue)
    else if "Cause:" <= s then Some(Cause)
    else if "Fix:" <= s then Some(Fix)
    else None
  }

  /** `piece.match(/Issue:|Cause:|Fix:/)`: a label occurs somewhere in `t`. */
  predicate ContainsLabel(t: string)
  {
    |t| > 0 && (LabelAt(t).Some? || ContainsLabel(t[1..]))
  }

  /**
   * `text.split(/(Issue:|Cause:|Fix:)/)`: the segments between label matches, with each
   * matched label kept between them. `cur` is the segment read so far.
   */
  function SplitFrom(rest: string, cur: string): seq<string>
    decreases |rest|
  {
    if rest == [] then [cur]
    else match LabelAt(rest)
      case Some(l) => [cur, LabelText(l)] + SplitFrom(rest[|LabelText(l)|..], "")
      case None => SplitFrom(rest[1..], cur + [rest[0]])
  }

  function Split(s: string): seq<string> {
    SplitFrom(s, "")
  }

  /** `filter(Boolean)` on strings: drops the empty pieces. */
  function RemoveEmpty(ps: seq<string>): (r: seq<string>)
    ensures forall k :: 0 <= k < |r| ==> r[k] != "" && r[k] in ps
  {
    if ps == [] then []
    else (if ps[0] == "" then [] else [ps[0]]) + RemoveEmpty(ps[1..])
  }

  /** `section.replace(':', '')`: removes the first colon only. */
  function RemoveFirstColon(s: string): string {
    if s == [] then []
    else if s[0] == ':' then s[1..]
    else [s[0]] + RemoveFirstColon(s[1..])
  }

  datatype Section = Section(kind: string, content: string)

  /** The `reduce`: one section per piece that contains a label, paired with the next piece. */
  function SectionsOf(ps: seq<string>): seq<Section> {
    if ps == [] then []
    else
      (if ContainsLabel(ps[0])
       then [Section(Lower(RemoveFirstColon(ps[0])), if |ps| > 1 then Trim(ps[1]) else "")]
       else [])
      + SectionsOf(ps[1..])
  }

  /**
   * `parseExplanation(text)`. `None` stands for both JavaScript `undefined` and the `null`
   * the parser returns for falsy text; `Some(sections)` is the array of sections.
   */
  function ParseExplanation(text: Option<string>): (r: Option<seq<Section>>)
    ensures r.None? <==> (text.None? || text.value == "")
    ensures r.Some? ==> forall k :: 0 <= k < |r.value| ==> r.value[k].kind in {"issue", "cause", "fix"}
  {
    if text.None? || text.value == "" then None
    else
      ParseFollowsLabels(text.value);
      Some(SectionsIn(text.value))
  }

  /** What the panel shows. */
  datatype View = Spinner | SectionList(sections: seq<Section>) | NoExplanation

  function Render(text: Option<string>, loading: bool): (v: View)
    ensures loading <==> v.Spinner?
    ensures v.NoExplanation? <==> !loading && (text.None? || text.value == "")
    ensures v.SectionList? ==> Some(v.sections) == ParseExplanation(text)
  {
    if loading then Spinner
    else match ParseExplanation(text)
      case Some(secs) => SectionList(secs)
      case None => NoExplanation
  }

  /** Reference definition: the labels in `s`, in the order a left-to-right search finds them. */
  function Labels(s: string): seq<Label>
    decreases |s|
  {
    if s == [] then []
    else match LabelAt(s)
      case Some(l) => [l] + Labels(s[|LabelText(l)|..])
      case None => Labels(s[1..])
  }

  function KindNames(ls: seq<Label>): (r: seq<string>)
    ensures |r| == |ls|
    ensures forall k :: 0 <= k < |ls| ==> r[k] == KindName(ls[k])
  {
    if ls == [] then [] else [KindName(ls[0])] + KindNames(ls[1..])
  }

  function Kinds(secs: seq<Section>): (r: seq<string>)
    ensures |r| == |secs|
    ensures forall k :: 0 <= k < |secs| ==> r[k] == secs[k].kind
  {
    if secs == [] then [] else [secs[0].kind] + Kinds(secs[1..])
  }

  /** The label a piece is exactly, if any. */
  function PieceLabel(p: string): Option<Label> {
    if p == "Issue:" then Some(Issue)
    else if p == "Cause:" then Some(Cause)
    else if p == "Fix:" then Some(Fix)
    else None
  }

  /** A piece of the split is exactly a label, or contains none. */
  predicate Shaped(p: string) {
    PieceLabel(p).Some? || !ContainsLabel(p)
  }

  predicate AllShaped(ps: seq<string>) {
    forall k :: 0 <= k < |ps| ==> Shaped(ps[k])
  }

  /** The labels of the label pieces of `ps`, in order. */
  function PieceLabels(ps: seq<string>): seq<Label> {
    if ps == [] then []
    else (if PieceLabel(ps[0]).Some? then [PieceLabel(ps[0]).value] else []) + PieceLabels(ps[1..])
  }

  lemma {:induction false} RemoveColonAtEnd(w: string)
    requires ':' !in w
    ensures RemoveFirstColon(w + ":") == w
  {
    if w != [] {
      assert (w + ":")[1..] == w[1..] + ":";
      RemoveColonAtEnd(w[1..]);
    }
  }

  lemma LabelTextIsLabel(l: Label)
    ensures LabelAt(LabelText(l)) == Some(l)
    ensures PieceLabel(LabelText(l)) == Some(l)
    ensures ContainsLabel(LabelText(l))
  {
    match l
    case Issue =>
    case Cause => assert !("Issue:" <= "Cause:") by { assert "Cause:"[0] == 'C'; }
    case Fix =>
      assert !("Issue:" <= "Fix:") && !("Cause:" <= "Fix:") by { assert "Fix:"[0] == 'F'; }
  }

  lemma LabelTextTrim(l: Label)
    ensures Trim(LabelText(l)) == LabelText(l)
  {
    TrimOfTrimmed(LabelText(l));
  }

  lemma LabelTextFacts(l: Label)
    ensures Lower(RemoveFirstColon(LabelText(l))) == KindName(l)
  {
    match l
    case Issue =>
      assert LabelText(l) == "Issue" + ":";
      RemoveColonAtEnd("Issue");
      assert Lower("Issue") == "issue";
    case Cause =>
      assert LabelText(l) == "Cause" + ":";
      RemoveColonAtEnd("Cause");
      assert Lower("Cause") == "cause";
    case Fix =>
      assert LabelText(l) == "Fix" + ":";
      RemoveColonAtEnd("Fix");
      assert Lower("Fix") == "fix";
  }

  /** A label found at any position makes the whole string contain a label. */
  lemma {:induction false} ContainsLabelAt(t: string, p: nat)
    requires p < |t| && LabelAt(t[p..]).Some?
    ensures ContainsLabel(t)
  {
    if p > 0 {
      assert t[1..][p - 1..] == t[p..];
      ContainsLabelAt(t[1..], p - 1);
    }
  }

  /** The converse: a string with no label has no label at any position. */
  lemma NoLabelAt(t: string, p: nat)
    requires !ContainsLabel(t) && p < |t|
    ensures LabelAt(t[p..]).None?
  {
    if LabelAt(t[p..]).Some? {
      ContainsLabelAt(t, p);
    }
  }

  /** Invariant of the split: no label starts inside the segment being read. */
  predicate NoLabelStartsIn(cur: string, rest: string) {
    forall p :: 0 <= p < |cur| ==> LabelAt((cur + rest)[p..]).None?
  }

  lemma LabelAtExtends(s: string, t: string)
    ensures LabelAt(s).Some? ==> LabelAt(s + t) == LabelAt(s)
  {
    if "Issue:" <= s { assert "Issue:" <= s + t; }
    else if "Cause:" <= s { assert "Cause:" <= s + t; assert (s + t)[0] == 'C'; }
    else if "Fix:" <= s { assert "Fix:" <= s + t; assert (s + t)[0] == 'F'; }
  }

  /** A segment grown while no label started inside it contains no label. */
  lemma {:induction false} SegmentHasNoLabel(cur: string, rest: string)
    requires NoLabelStartsIn(cur, rest)
    ensures !ContainsLabel(cur)
  {
    if cur != [] {
      assert (cur + rest)[0..] == cur + rest;
      LabelAtExtends(cur, rest);
      forall p | 0 <= p < |cur| - 1 ensures LabelAt((cur[1..] + rest)[p..]).None? {
        assert (cur[1..] + rest)[p..] == (cur + rest)[p + 1..];
      }
      SegmentHasNoLabel(cur[1..], rest);
    }
  }

  lemma NoLabelStep(cur: string, rest: string)
    requires rest != [] && LabelAt(rest).None? && NoLabelStartsIn(cur, rest)
    ensures NoLabelStartsIn(cur + [rest[0]], rest[1..])
  {
    assert (cur + [rest[0]]) + rest[1..] == cur + rest;
    assert (cur + rest)[|cur|..] == rest;
  }

  lemma SegmentIsText(cur: string, rest: string)
    requires NoLabelStartsIn(cur, rest)
    ensures !ContainsLabel(cur) && PieceLabel(cur).None? && Shaped(cur)
  {
    SegmentHasNoLabel(cur, rest);
    ShapedTest(cur);
  }

  lemma SplitAtLabel(rest: string, cur: string, l: Label)
    requires LabelAt(rest) == Some(l)
    ensures SplitFrom(rest, cur) == [cur, LabelText(l)] + SplitFrom(rest[|LabelText(l)|..], "")
  {
  }

  lemma SplitAtText(rest: string, cur: string)
    requires rest != [] && LabelAt(rest).None?
    ensures SplitFrom(rest, cur) == SplitFrom(rest[1..], cur + [rest[0]])
  {
  }

  lemma AllShapedAppend(a: seq<string>, b: seq<string>)
    requires AllShaped(a) && AllShaped(b)
    ensures AllShaped(a + b)
  {
    forall k | 0 <= k < |a + b| ensures Shaped((a + b)[k]) {
      if k < |a| { assert (a + b)[k] == a[k]; } else { assert (a + b)[k] == b[k - |a|]; }
    }
  }

  lemma {:induction false} SplitShape(rest: string, cur: string)
    requires NoLabelStartsIn(cur, rest)
    ensures AllShaped(SplitFrom(rest, cur))
    decreases |rest|
  {
    if rest == [] {
      SegmentIsText(cur, rest);
      assert SplitFrom(rest, cur) == [cur];
    } else if LabelAt(rest).Some? {
      SplitShapeLabel(rest, cur);
    } else {
      SplitAtText(rest, cur);
      NoLabelStep(cur, rest);
      SplitShape(rest[1..], cur + [rest[0]]);
    }
  }

  lemma {:induction false} SplitShapeLabel(rest: string, cur: string)
    requires NoLabelStartsIn(cur, rest) && rest != [] && LabelAt(rest).Some?
    ensures AllShaped(SplitFrom(rest, cur))
    decreases |rest|, 0
  {
    SegmentIsText(cur, rest);
    var l := LabelAt(rest).value;
    var n := |LabelText(l)|;
    assert 0 < n <= |rest|;
    var after := rest[n..];
    assert PieceLabel(LabelText(l)) == Some(l);
    SplitAtLabel(rest, cur, l);
    SplitShape(after, "");
    assert AllShaped([cur, LabelText(l)]);
    AllShapedAppend([cur, LabelText(l)], SplitFrom(after, ""));
  }

  lemma {:induction false} SplitLabels(rest: string, cur: string)
    requires NoLabelStartsIn(cur, rest)
    ensures PieceLabels(SplitFrom(rest, cur)) == Labels(rest)
    decreases |rest|
  {
    SegmentIsText(cur, rest);
    if rest == [] {
      assert SplitFrom(rest, cur) == [cur];
    } else if LabelAt(rest).Some? {
      var l := LabelAt(rest).value;
      LabelTextIsLabel(l);
      var tail := SplitFrom(rest[|LabelText(l)|..], "");
      SplitAtLabel(rest, cur, l);
      SplitLabels(rest[|LabelText(l)|..], "");
      PieceLabelsAppend([cur, LabelText(l)], tail);
      assert PieceLabels([cur, LabelText(l)]) == [l] by {
        assert [cur, LabelText(l)][1..] == [LabelText(l)];
      }
      assert Labels(rest) == [l] + Labels(rest[|LabelText(l)|..]);
    } else {
      SplitAtText(rest, cur);
      NoLabelStep(cur, rest);
      SplitLabels(rest[1..], cur + [rest[0]]);
    }
  }

  lemma {:induction false} PieceLabelsAppend(a: seq<string>, b: seq<string>)
    ensures PieceLabels(a + b) == PieceLabels(a) + PieceLabels(b)
  {
    if a != [] {
      var head := if PieceLabel(a[0]).Some? then [PieceLabel(a[0]).value] else [];
      assert (a + b)[0] == a[0];
      assert (a + b)[1..] == a[1..] + b;
      assert PieceLabels(a + b) == head + PieceLabels(a[1..] + b);
      PieceLabelsAppend(a[1..], b);
      assert PieceLabels(a) == head + PieceLabels(a[1..]);
    } else {
      assert a + b == b;
    }
  }

  lemma {:induction false} RemoveEmptyKeeps(ps: seq<string>)
    requires AllShaped(ps)
    ensures AllShaped(RemoveEmpty(ps))
    ensures PieceLabels(RemoveEmpty(ps)) == PieceLabels(ps)
  {
    if ps != [] {
      assert AllShaped(ps[1..]) by {
        forall k | 0 <= k < |ps| - 1 ensures Shaped(ps[1..][k]) { assert ps[1..][k] == ps[k + 1]; }
      }
      RemoveEmptyKeeps(ps[1..]);
      var head := if ps[0] == "" then [] else [ps[0]];
      assert RemoveEmpty(ps) == head + RemoveEmpty(ps[1..]);
      PieceLabelsAppend(head, RemoveEmpty(ps[1..]));
      assert PieceLabels(ps) == PieceLabels([ps[0]]) + PieceLabels(ps[1..]) by {
        assert ps == [ps[0]] + ps[1..];
        PieceLabelsAppend([ps[0]], ps[1..]);
      }
    }
  }

  /** On a shaped piece, the parser's label test `ContainsLabel` is "is a label". */
  lemma ShapedTest(p: string)
    requires Shaped(p)
    ensures ContainsLabel(p) <==> PieceLabel(p).Some?
    ensures PieceLabel(p).Some? ==> Lower(RemoveFirstColon(p)) == KindName(PieceLabel(p).value)
  {
    match PieceLabel(p)
    case Some(l) =>
      assert p == LabelText(l);
      LabelTextIsLabel(l);
      LabelTextFacts(l);
      LabelTextTrim(l);
    case None =>
  }

  lemma {:induction false} SectionKinds(ps: seq<string>)
    requires AllShaped(ps)
    ensures Kinds(SectionsOf(ps)) == KindNames(PieceLabels(ps))
  {
    if ps != [] {
      assert AllShaped(ps[1..]) by {
        forall k | 0 <= k < |ps| - 1 ensures Shaped(ps[1..][k]) { assert ps[1..][k] == ps[k + 1]; }
      }
      SectionKinds(ps[1..]);
      ShapedTest(ps[0]);
      var head := if ContainsLabel(ps[0])
        then [Section(Lower(RemoveFirstColon(ps[0])), if |ps| > 1 then Trim(ps[1]) else "")] else [];
      assert SectionsOf(ps) == head + SectionsOf(ps[1..]);
      var lhead := if PieceLabel(ps[0]).Some? then [PieceLabel(ps[0]).value] else [];
      assert PieceLabels(ps) == lhead + PieceLabels(ps[1..]);
      assert Kinds(head) == KindNames(lhead);
      assert Kinds(head + SectionsOf(ps[1..])) == Kinds(head) + Kinds(SectionsOf(ps[1..]));
      assert KindNames(lhead + PieceLabels(ps[1..])) == KindNames(lhead) + KindNames(PieceLabels(ps[1..]));
    }
  }

  /**
   * One section per label occurrence, in the order the labels appear, and each section's
   * kind is the name of its label.
   */
  lemma ParseFollowsLabels(s: string)
    requires s != ""
    ensures Kinds(SectionsIn(s)) == KindNames(Labels(s))
  {
    SplitShape(s, "");
    SplitLabels(s, "");
    RemoveEmptyKeeps(Split(s));
    SectionKinds(RemoveEmpty(Split(s)));
  }

  /** The sections of non-empty text. */
  function SectionsIn(s: string): seq<Section> {
    SectionsOf(RemoveEmpty(Split(s)))
  }

  lemma LabelAtFirstChar(s: string)
    requires LabelAt(s).Some?
    ensures LabelText(LabelAt(s).value) <= s
    ensures s[0] == 'I' || s[0] == 'C' || s[0] == 'F'
  {
  }

  lemma LabelAtOf(l: Label, s: string)
    requires LabelText(l) <= s
    ensures LabelAt(s).Some?
  {
  }

  /** No character after the first one of a label can begin a label. */
  lemma LabelTailChars(l: Label, j: nat)
    requires 1 <= j < |LabelText(l)|
    ensures LabelText(l)[j] != 'I' && LabelText(l)[j] != 'C' && LabelText(l)[j] != 'F'
  {
  }

  predicate NoLabelBefore(s: string, n: nat) {
    forall p :: 0 <= p < n && p <= |s| ==> LabelAt(s[p..]).None?
  }

  /** Reading through text in which no label starts only extends the current segment. */
  lemma {:induction false} SplitSkip(pre: string, rest: string, cur: string)
    requires NoLabelBefore(pre + rest, |pre|)
    ensures SplitFrom(pre + rest, cur) == SplitFrom(rest, cur + pre)
  {
    if pre == [] {
      assert pre + rest == rest && cur + pre == cur;
    } else {
      var s := pre + rest;
      assert s[0..] == s;
      SplitAtText(s, cur);
      assert s[1..] == pre[1..] + rest;
      forall p | 0 <= p < |pre[1..]| && p <= |pre[1..] + rest|
        ensures LabelAt((pre[1..] + rest)[p..]).None?
      {
        assert (pre[1..] + rest)[p..] == s[p + 1..];
      }
      SplitSkip(pre[1..], rest, cur + [pre[0]]);
      assert (cur + [pre[0]]) + pre[1..] == cur + pre;
    }
  }

  /**
   * A label cannot straddle the end of label-free text and a following label,
   * so no label starts inside `pre`.
   */
  lemma NoStraddle(pre: string, rest: string)
    requires !ContainsLabel(pre) && (rest == [] || LabelAt(rest).Some?)
    ensures NoLabelBefore(pre + rest, |pre|)
  {
    forall p | 0 <= p < |pre| ensures LabelAt((pre + rest)[p..]).None? {
      NoLabelInside(pre, rest, p);
    }
  }

  /** No label starts at position `p` of label-free `pre` followed by `rest`. */
  lemma NoLabelInside(pre: string, rest: string, p: nat)
    requires !ContainsLabel(pre) && (rest == [] || LabelAt(rest).Some?) && p < |pre|
    ensures LabelAt((pre + rest)[p..]).None?
  {
    var t := (pre + rest)[p..];
    assert t == pre[p..] + rest;
    if LabelAt(t).Some? {
      var l := LabelAt(t).value;
      LabelAtFirstChar(t);
      var j := |pre| - p;
      if |LabelText(l)| <= j {
        assert LabelText(l) <= pre[p..];
        LabelAtOf(l, pre[p..]);
        ContainsLabelAt(pre, p);
      } else {
        assert rest != [];
        LabelAtFirstChar(rest);
        assert rest[0] == t[j] == LabelText(l)[j];
        LabelTailChars(l, j);
      }
    }
  }

  lemma SplitOfLabel(l: Label, t: string)
    ensures Split(LabelText(l) + t) == ["", LabelText(l)] + Split(t)
  {
    LabelTextIsLabel(l);
    LabelAtExtends(LabelText(l), t);
    assert (LabelText(l) + t)[|LabelText(l)|..] == t;
    SplitAtLabel(LabelText(l) + t, "", l);
  }

  lemma SplitOfText(w: string, rest: string)
    requires w != "" && !ContainsLabel(w) && (rest == "" || LabelAt(rest).Some?)
    ensures Split(w + rest) == [w] + Split(rest)[1..]
    ensures Split(rest)[0] == ""
  {
    NoStraddle(w, rest);
    SplitSkip(w, rest, "");
    assert "" + w == w;
    if rest != "" {
      var l := LabelAt(rest).value;
      SplitAtLabel(rest, w, l);
      SplitAtLabel(rest, "", l);
    }
  }

  lemma {:induction false} RemoveEmptyAppend(a: seq<string>, b: seq<string>)
    ensures RemoveEmpty(a + b) == RemoveEmpty(a) + RemoveEmpty(b)
  {
    if a == [] {
      assert a + b == b;
    } else {
      assert (a + b)[0] == a[0];
      assert (a + b)[1..] == a[1..] + b;
      RemoveEmptyAppend(a[1..], b);
    }
  }

  lemma SectionsOfText(x: string, ps: seq<string>)
    requires !ContainsLabel(x)
    ensures SectionsOf([x] + ps) == SectionsOf(ps)
  {
    assert ([x] + ps)[1..] == ps;
  }

  lemma SectionsOfLabel(l: Label, ps: seq<string>)
    ensures SectionsOf([LabelText(l)] + ps)
         == [Section(KindName(l), if ps != [] then Trim(ps[0]) else "")] + SectionsOf(ps)
  {
    var qs := [LabelText(l)] + ps;
    assert qs[0] == LabelText(l);
    assert qs[1..] == ps;
    assert |qs| > 1 ==> qs[1] == ps[0];
    LabelTextIsLabel(l);
    LabelTextFacts(l);
    var content := if |qs| > 1 then Trim(qs[1]) else "";
    assert SectionsOf(qs) == [Section(Lower(RemoveFirstColon(qs[0])), content)] + SectionsOf(qs[1..]);
  }

  /** Non-empty text without labels parses to no sections, which is not the placeholder. */
  lemma NoLabelsNoSections(s: string)
    requires s != "" && !ContainsLabel(s)
    ensures ParseExplanation(Some(s)) == Some([])
    ensures Render(Some(s), false) == SectionList([])
  {
    SplitOfText(s, "");
    assert s + "" == s;
    assert RemoveEmpty([s]) == [s];
    SectionsOfText(s, []);
  }

  /** Text before the first label contributes nothing. */
  lemma LeadingTextDiscarded(pre: string, rest: string)
    requires !ContainsLabel(pre) && LabelAt(rest).Some?
    ensures SectionsIn(pre + rest) == SectionsIn(rest)
  {
    if pre == [] {
      assert pre + rest == rest;
    } else {
      SplitOfText(pre, rest);
      var tail := Split(rest)[1..];
      assert Split(rest) == [""] + tail;
      RemoveEmptyAppend([pre], tail);
      RemoveEmptyAppend([""], tail);
      assert RemoveEmpty([pre]) == [pre];
      assert RemoveEmpty([""]) == [];
      assert RemoveEmpty(Split(pre + rest)) == [pre] + RemoveEmpty(tail);
      assert RemoveEmpty(Split(rest)) == RemoveEmpty(tail);
      SectionsOfText(pre, RemoveEmpty(tail));
    }
  }

  /** A label followed by label-free text takes that text, trimmed, as its content. */
  lemma LabelThenText(l: Label, w: string, rest: string)
    requires w != "" && !ContainsLabel(w) && (rest == "" || LabelAt(rest).Some?)
    ensures SectionsIn(LabelText(l) + w + rest) == [Section(KindName(l), Trim(w))] + SectionsIn(rest)
  {
    LabelThenTextPieces(l, w, rest);
    var body := RemoveEmpty(Split(rest));
    SectionsOfLabel(l, [w] + body);
    assert ([w] + body)[0] == w;
    SectionsOfText(w, body);
  }

  /** The split of a label followed by label-free text: the label, the text, then the split of the rest. */
  lemma LabelThenTextSplit(l: Label, w: string, rest: string)
    requires w != "" && !ContainsLabel(w) && (rest == "" || LabelAt(rest).Some?)
    ensures |Split(rest)| >= 1 && Split(rest) == [""] + Split(rest)[1..]
    ensures Split(LabelText(l) + w + rest) == ["", LabelText(l)] + ([w] + Split(rest)[1..])
  {
    assert LabelText(l) + w + rest == LabelText(l) + (w + rest);
    SplitOfLabel(l, w + rest);
    SplitOfText(w, rest);
  }

  /** The non-empty split pieces of a label followed by label-free text: the label, the text, then those of the rest. */
  lemma LabelThenTextPieces(l: Label, w: string, rest: string)
    requires w != "" && !ContainsLabel(w) && (rest == "" || LabelAt(rest).Some?)
    ensures RemoveEmpty(Split(LabelText(l) + w + rest)) == [LabelText(l)] + ([w] + RemoveEmpty(Split(rest)))
  {
    var tail := Split(rest)[1..];
    LabelThenTextSplit(l, w, rest);
    RemoveEmptyAppend(["", LabelText(l)], [w] + tail);
    RemoveEmptyAppend([w], tail);
    RemoveEmptyAppend([""], tail);
    assert RemoveEmpty(["", LabelText(l)]) == [LabelText(l)] by {
      assert ["", LabelText(l)][1..] == [LabelText(l)];
      assert RemoveEmpty([LabelText(l)]) == [LabelText(l)];
    }
    assert RemoveEmpty([w]) == [w];
    assert RemoveEmpty([""]) == [];
    var body := RemoveEmpty(tail);
    assert RemoveEmpty(Split(LabelText(l) + w + rest)) == [LabelText(l)] + ([w] + body);
    assert RemoveEmpty(Split(rest)) == body;
  }

  /**
   * Two touching labels: empty pieces are dropped before pairing, so the first label's
   * content is the second label's own text.
   */
  lemma LabelsTouch(a: Label, b: Label, rest: string)
    ensures SectionsIn(LabelText(a) + LabelText(b) + rest)
         == [Section(KindName(a), LabelText(b))] + SectionsIn(LabelText(b) + rest)
  {
    assert LabelText(a) + LabelText(b) + rest == LabelText(a) + (LabelText(b) + rest);
    SplitOfLabel(a, LabelText(b) + rest);
    SplitOfLabel(b, rest);
    var t := Split(rest);
    RemoveEmptyAppend(["", LabelText(a)], ["", LabelText(b)] + t);
    RemoveEmptyAppend(["", LabelText(b)], t);
    assert RemoveEmpty(["", LabelText(a)]) == [LabelText(a)];
    assert RemoveEmpty(["", LabelText(b)]) == [LabelText(b)];
    SectionsOfLabel(a, [LabelText(b)] + RemoveEmpty(t));
    LabelTextTrim(b);
  }

  /** A label at the very end gets empty content. */
  lemma LabelAtEnd(l: Label)
    ensures ParseExplanation(Some(LabelText(l))) == Some([Section(KindName(l), "")])
  {
    assert LabelText(l) + "" == LabelText(l);
    SplitOfLabel(l, "");
    assert Split("") == [""];
    assert Split(LabelText(l)) == ["", LabelText(l)] + [""];
    RemoveEmptyAppend(["", LabelText(l)], [""]);
    assert RemoveEmpty(["", LabelText(l)]) == [LabelText(l)] by {
      assert ["", LabelText(l)][1..] == [LabelText(l)];
      assert RemoveEmpty([LabelText(l)]) == [LabelText(l)];
    }
    assert RemoveEmpty([""]) == [];
    assert RemoveEmpty(Split(LabelText(l))) == [LabelText(l)] + [];
    SectionsOfLabel(l, []);
    assert SectionsIn(LabelText(l)) == [Section(KindName(l), "")];
  }

  lemma SpacesHaveNoLabel(w: string)
    requires AllSpace(w)
    ensures !ContainsLabel(w)
    decreases |w|
  {
    if w != [] {
      if LabelAt(w).Some? { LabelAtFirstChar(w); }
      SpacesHaveNoLabel(w[1..]);
    }
  }

  /** A label followed only by whitespace also gets empty content. */
  lemma LabelThenSpaces(l: Label, w: string)
    requires w != "" && AllSpace(w)
    ensures ParseExplanation(Some(LabelText(l) + w)) == Some([Section(KindName(l), "")])
  {
    SpacesHaveNoLabel(w);
    LabelThenText(l, w, "");
    assert LabelText(l) + w + "" == LabelText(l) + w;
    assert Trim(w) == "";
    assert SectionsIn("") == [] by {
      assert Split("") == [""];
      assert RemoveEmpty([""]) == [];
    }
    assert SectionsIn(LabelText(l) + w) == [Section(KindName(l), "")];
  }

  lemma LabelAtStart(l: Label, t: string)
    ensures LabelAt(LabelText(l) + t) == Some(l)
  {
    LabelTextIsLabel(l);
    LabelAtExtends(LabelText(l), t);
  }

  /** Text shorter than the shortest label holds no label. */
  lemma {:induction false} ShortNoLabel(w: string)
    requires |w| < |"Fix:"|
    ensures !ContainsLabel(w)
    decreases |w|
  {
    if w != [] {
      ShortNoLabel(w[1..]);
    }
  }

  lemma TrimOfPadded(x: char)
    requires !IsSpace(x)
    ensures Trim([' ', x, ' ']) == [x] && Trim([' ', x]) == [x]
  {
    assert TrimStart([' ', x, ' ']) == [x, ' '] by {
      assert [' ', x, ' '][1..] == [x, ' '];
    }
    assert TrimEnd([x, ' ']) == [x] by {
      assert [x, ' '][..1] == [x];
    }
    assert TrimStart([' ', x]) == [x] by {
      assert [' ', x][1..] == [x];
    }
  }

  lemma EmptySections()
    ensures SectionsIn("") == []
  {
    assert Split("") == [""];
    assert RemoveEmpty([""]) == [];
  }

  /** `"Issue: A Cause: B Fix: C"` gives the three sections A, B and C in order. */
  lemma WorkedExample(text: string)
    requires text == "Issue: A Cause: B Fix: C"
    ensures ParseExplanation(Some(text)) == Some([Section("issue", "A"), Section("cause", "B"), Section("fix", "C")])
  {
    var a, b, c := [' ', 'A', ' '], [' ', 'B', ' '], [' ', 'C'];
    var fix := LabelText(Fix) + c;
    var cause := LabelText(Cause) + (b + fix);
    var all := LabelText(Issue) + (a + cause);
    assert all == text;
    ExampleSections(a, b, c);
  }

  /** A single label followed by its text. */
  lemma OneSection(l: Label, w: string)
    requires w != "" && !ContainsLabel(w)
    ensures SectionsIn(LabelText(l) + w) == [Section(KindName(l), Trim(w))]
  {
    LabelThenText(l, w, "");
    assert LabelText(l) + w + "" == LabelText(l) + w;
    EmptySections();
  }

  /** A label with its text, in front of text that starts with a label. */
  lemma SectionBefore(l: Label, w: string, rest: string)
    requires w != "" && !ContainsLabel(w) && LabelAt(rest).Some?
    ensures SectionsIn(LabelText(l) + (w + rest)) == [Section(KindName(l), Trim(w))] + SectionsIn(rest)
  {
    LabelThenText(l, w, rest);
    assert LabelText(l) + w + rest == LabelText(l) + (w + rest);
  }

  /** The usual shape of an explanation: the three labels in order, each followed by its text. */
  lemma ThreeSections(a: string, b: string, c: string)
    requires a != "" && b != "" && c != ""
    requires !ContainsLabel(a) && !ContainsLabel(b) && !ContainsLabel(c)
    ensures SectionsIn(LabelText(Issue) + (a + (LabelText(Cause) + (b + (LabelText(Fix) + c)))))
         == [Section("issue", Trim(a)), Section("cause", Trim(b)), Section("fix", Trim(c))]
  {
    var fix := LabelText(Fix) + c;
    var cause := LabelText(Cause) + (b + fix);
    OneSection(Fix, c);
    LabelAtStart(Fix, c);
    SectionBefore(Cause, b, fix);
    LabelAtStart(Cause, b + fix);
    SectionBefore(Issue, a, cause);
  }

  lemma ExampleSections(a: string, b: string, c: string)
    requires a == [' ', 'A', ' '] && b == [' ', 'B', ' '] && c == [' ', 'C']
    ensures SectionsIn(LabelText(Issue) + (a + (LabelText(Cause) + (b + (LabelText(Fix) + c)))))
         == [Section("issue", "A"), Section("cause", "B"), Section("fix", "C")]
  {
    ShortNoLabel(a);
    ShortNoLabel(b);
    ShortNoLabel(c);
    TrimOfPadded('A');
    TrimOfPadded('B');
    TrimOfPadded('C');
    ThreeSections(a, b, c);
  }
}
