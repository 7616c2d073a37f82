/** Properties of the prompt, summary and endpoint building of the LLM client. */
module LlmProofs {
  import opened Wrappers
  import opened PyStr
  import opened LlmService
  import Models

  // ---------------------------------------------------------------------------
  // Endpoints

  /** The two endpoints of one service differ, and each determines the base URL it came from. */
  lemma EndpointsDetermineBase(a: string, b: string)
    ensures GenerateEndpoint(a) != ChatEndpoint(b)
    ensures GenerateEndpoint(a) == GenerateEndpoint(b) ==> a == b
    ensures ChatEndpoint(a) == ChatEndpoint(b) ==> a == b
  {
    var g, c := GenerateEndpoint(a), ChatEndpoint(b);
    if |g| == |c| {
      assert g[|g| - 1] == 'e' && c[|c| - 1] == 't';
    }
    if GenerateEndpoint(a) == GenerateEndpoint(b) {
      assert a == GenerateEndpoint(a)[..|a|];
    }
    if ChatEndpoint(a) == ChatEndpoint(b) {
      assert a == ChatEndpoint(a)[..|a|];
    }
  }

  // ---------------------------------------------------------------------------
  // Role paragraphs

  /** Two characters that tell the four openings apart ("an A", "a C", "an I", "a R"). */
  lemma OpeningMarks(k: Models.Role)
    ensures |Opening(k)| > 22 && Opening(k)[0] == 'Y'
    ensures Opening(k)[20] == (match k
      case Admin => ' ' case Customer => 'C' case Insurer => ' ' case Regulator => 'R')
    ensures Opening(k)[21] == (match k
      case Admin => 'A' case Customer => 'U' case Insurer => 'I' case Regulator => 'E')
  {
  }

  /** No two paragraphs can both begin the same text. */
  lemma ParagraphsDiffer(j: Models.Role, k: Models.Role, s: string)
    requires Paragraph(j) <= s && Paragraph(k) <= s
    ensures j == k
  {
    OpeningMarks(j);
    OpeningMarks(k);
    assert s[20] == Opening(j)[20] == Opening(k)[20];
    assert s[21] == Opening(j)[21] == Opening(k)[21];
  }

  /** Whatever follows the base prompt decides which texts extend it. */
  lemma ExtendsBase(base: string, x: string, p: string)
    ensures base + p <= base + x <==> p <= x
  {
    if base + p <= base + x {
      assert p == (base + p)[|base|..] == (base + x)[|base|..|base| + |p|];
      assert x[..|p|] == (base + x)[|base|..|base| + |p|];
    }
  }

  lemma NoParagraphBeginsSummary(context: Dict, j: Models.Role)
    ensures !(Paragraph(j) <= SummarySection(context))
  {
    OpeningMarks(j);
    assert Paragraph(j)[0] == 'Y';
  }

  lemma RoleSectionOfKnown(k: Models.Role)
    ensures RoleSection(StrV(Models.Prefix(k))) == Paragraph(k)
  {
    match k
    case Admin =>
    case Customer =>
    case Insurer =>
    case Regulator =>
  }

  /**
   * A known role (`admin`, `customer`, `insurer`, `regulator`) gets its own
   * paragraph right after the base prompt, and no other role's paragraph.
   */
  lemma KnownRoleGetsOnlyItsParagraph(context: Dict, k: Models.Role, j: Models.Role)
    requires context != [] && RoleIn(context) == StrV(Models.Prefix(k))
    ensures BasePrompt + Paragraph(j) <= BuildSystemPrompt(Some(context)) <==> j == k
  {
    RoleSectionOfKnown(k);
    var x := Paragraph(k) + SummarySection(context);
    ExtendsBase(BasePrompt, x, Paragraph(j));
    if Paragraph(j) <= x {
      ParagraphsDiffer(j, k, x);
    }
  }

  /**
   * Any other role value, including the default `'user'`, adds no paragraph:
   * the prompt is the base prompt followed by the summary section alone.
   */
  lemma OtherRoleGetsNoParagraph(context: Dict, j: Models.Role)
    requires context != [] && forall k :: RoleIn(context) != StrV(Models.Prefix(k))
    ensures BuildSystemPrompt(Some(context)) == BasePrompt + SummarySection(context)
    ensures !(BasePrompt + Paragraph(j) <= BuildSystemPrompt(Some(context)))
  {
    assert RoleSection(RoleIn(context)) == [];
    assert RoleSection(RoleIn(context)) + SummarySection(context) == SummarySection(context);
    ExtendsBase(BasePrompt, SummarySection(context), Paragraph(j));
    NoParagraphBeginsSummary(context, j);
  }

  /** With no `'role'` key the role is `'user'`, which has no paragraph. */
  lemma MissingRoleIsUser(context: Dict)
    requires context != [] && Lookup(context, "role").None?
    ensures BuildSystemPrompt(Some(context)) == BasePrompt + SummarySection(context)
  {
    forall k: Models.Role ensures RoleIn(context) != StrV(Models.Prefix(k)) {
      match k
      case Admin =>
      case Customer =>
      case Insurer =>
      case Regulator =>
    }
    OtherRoleGetsNoParagraph(context, Models.Admin);
  }

  // ---------------------------------------------------------------------------
  // The data summary in the prompt

  /**
   * The prompt of a non-empty context is longer than its base and role part
   * exactly when the context has a `'data_summary'` key, and then it ends with
   * the heading, the summary's text and a newline.
   */
  lemma SummaryAppendedIff(context: Dict)
    requires context != []
    ensures var r := BuildSystemPrompt(Some(context));
      var head := BasePrompt + RoleSection(RoleIn(context));
      && head <= r
      && (Lookup(context, "data_summary").Some? <==> |r| > |head|)
      && (Lookup(context, "data_summary").Some? ==>
            var tail := SummaryHeading + Str(Lookup(context, "data_summary").value) + "\n";
            |r| >= |tail| && r[|r| - |tail|..] == tail)
  {
    var r := BuildSystemPrompt(Some(context));
    var head := BasePrompt + RoleSection(RoleIn(context));
    assert r == head + SummarySection(context);
    assert r[..|head|] == head;
    match Lookup(context, "data_summary")
    case None =>
    case Some(v) =>
      var tail := SummaryHeading + Str(v) + "\n";
      assert r == head + tail;
      assert r[|head|..] == tail;
  }

  /** `s.endswith(tail)`. */
  predicate EndsWith(s: string, tail: string) {
    |s| >= |tail| && s[|s| - |tail|..] == tail
  }

  /** A text ending in `tail` still ends in it after something is put in front. */
  lemma EndsWithAfterPrefix(a: string, y: string, tail: string)
    requires EndsWith(y, tail)
    ensures EndsWith(a + y, tail)
  {
    assert (a + y)[|a + y| - |tail|..] == y[|y| - |tail|..];
  }

  /** A summary string under `'data_summary'` appears verbatim at the end of the prompt. */
  lemma SummaryTextAtEnd(context: Dict, summary: string)
    requires Lookup(context, "data_summary") == Some(StrV(summary))
    ensures EndsWith(BuildSystemPrompt(Some(context)), SummaryHeading + summary + "\n")
  {
    assert context != [];
    var tail := SummaryHeading + summary + "\n";
    assert SummarySection(context) == tail;
    var role := RoleSection(RoleIn(context));
    assert EndsWith(role + tail, tail);
    EndsWithAfterPrefix(BasePrompt, role + tail, tail);
  }

  // ---------------------------------------------------------------------------
  // Summary lines

  /** The label shown for a key: same length, spaces where the key had `_`, no `_` left, already title-cased. */
  lemma KeyLabelFacts(key: string)
    ensures var shown := KeyLabel(key);
      && |shown| == |key|
      && '_' !in shown
      && (forall i :: 0 <= i < |key| && key[i] == '_' ==> shown[i] == ' ')
      && ('\n' in shown <==> '\n' in key)
      && Title(shown) == shown
  {
    var spaced := ReplaceChar(key, '_', ' ');
    var shown := KeyLabel(key);
    forall i | 0 <= i < |key|
      ensures shown[i] != '_'
      ensures key[i] == '_' ==> shown[i] == ' '
      ensures shown[i] == '\n' <==> key[i] == '\n'
    {
      TitleAt(spaced, i);
    }
    TitleIdempotent(spaced);
  }

  /** The lines of two dictionaries one after the other: the first one's lines, then the second's. */
  lemma {:induction false} SummaryLinesConcat(d1: Dict, d2: Dict)
    ensures SummaryLines(d1 + d2) == SummaryLines(d1) + SummaryLines(d2)
  {
    if d2 != [] {
      var init := d2[..|d2| - 1];
      var last := d2[|d2| - 1];
      SummaryLinesConcat(d1, init);
      var d := d1 + d2;
      assert d[..|d| - 1] == d1 + init;
      assert d[|d| - 1] == last;
      var tail := match SummaryLine(last.0, last.1) case None => [] case Some(line) => [line];
      assert SummaryLines(d) == SummaryLines(d1 + init) + tail;
      assert SummaryLines(d2) == SummaryLines(init) + tail;
    } else {
      assert d1 + d2 == d1;
    }
  }

  /** The count in a list's or a dict's summary text reads back, with `int()`, as its length. */
  lemma SummaryCountReadsBack(v: Value)
    requires v.ListV? || v.DictV?
    ensures var t := SummaryValue(v).value;
      var n := if v.ListV? then |v.items| else |v.entries|;
      var suffix := if v.ListV? then " items" else " entries";
      |suffix| <= |t| && t[|t| - |suffix|..] == suffix && ParseInt(t[..|t| - |suffix|]) == Some(n)
  {
    var t := SummaryValue(v).value;
    var n := if v.ListV? then |v.items| else |v.entries|;
    var d := NatToDecimal(n);
    var suffix := if v.ListV? then " items" else " entries";
    assert t == d + suffix;
    assert t[..|t| - |suffix|] == d;
    ParseIntOfDecimal(n);
  }

  /**
   * `generate_data_summary` of a single entry: one line, "- Label: text", for a
   * number (bool included), list or dict; nothing for any other value.
   */
  lemma SummaryOfOneEntry(key: string, v: Value)
    ensures SummaryLines([(key, v)]) ==
      if v.BoolV? || v.IntV? || v.FloatV? || v.ListV? || v.DictV?
      then ["- " + KeyLabel(key) + ": " + SummaryValue(v).value]
      else []
  {
    assert [(key, v)][..0] == [];
  }

  /** An entry whose value is a string, `None` or any other value yields no line. */
  lemma {:induction false} SummaryOfIneligible(data: Dict)
    requires forall i :: 0 <= i < |data| ==> SummaryValue(data[i].1).None?
    ensures SummaryLines(data) == [] && Join(SummaryLines(data), "\n") == ""
  {
    if data != [] {
      SummaryOfIneligible(data[..|data| - 1]);
    }
  }

  /**
   * Every entry that gets a line has it in the summary lines, at the place of
   * the entry: right after the lines of the entries before it.
   */
  lemma EveryEligibleEntryListed(data: Dict, i: nat)
    requires i < |data| && SummaryLine(data[i].0, data[i].1).Some?
    ensures SummaryLine(data[i].0, data[i].1).value in SummaryLines(data)
    ensures |SummaryLines(data[..i])| < |SummaryLines(data)|
    ensures SummaryLines(data)[|SummaryLines(data[..i])|] == SummaryLine(data[i].0, data[i].1).value
  {
    var pre, e, post := data[..i], data[i], data[i + 1..];
    assert data == pre + [e] + post;
    SummaryLinesConcat(pre + [e], post);
    SummaryLinesConcat(pre, [e]);
    SingleEntryLine(e);
    var before, line, after := SummaryLines(pre), SummaryLine(e.0, e.1).value, SummaryLines(post);
    assert SummaryLines(data) == before + [line] + after;
    assert (before + [line] + after)[|before|] == line;
  }

  lemma SingleEntryLine(e: (string, Value))
    requires SummaryLine(e.0, e.1).Some?
    ensures SummaryLines([e]) == [SummaryLine(e.0, e.1).value]
  {
    assert [e][..0] == [];
  }

  predicate NoNewline(s: string) { '\n' !in s }

  lemma ValueTextHasNoNewline(v: Value)
    requires SummaryValue(v).Some?
    requires v.FloatV? ==> NoNewline(v.text)
    ensures NoNewline(SummaryValue(v).value)
  {
    match v
    case IntV(i) =>
      var d := NatToDecimal(if i < 0 then -i else i);
      assert forall k :: 0 <= k < |d| ==> IsDigit(d[k]);
    case ListV(items) =>
      var d := NatToDecimal(|items|);
      assert forall k :: 0 <= k < |d| ==> IsDigit(d[k]);
    case DictV(entries) =>
      var d := NatToDecimal(|entries|);
      assert forall k :: 0 <= k < |d| ==> IsDigit(d[k]);
    case _ =>
  }

  lemma {:induction false} LinesHaveNoNewline(data: Dict)
    requires forall i :: 0 <= i < |data| ==> NoNewline(data[i].0)
    requires forall i :: 0 <= i < |data| && data[i].1.FloatV? ==> NoNewline(data[i].1.text)
    ensures forall i :: 0 <= i < |SummaryLines(data)| ==> NoNewline(SummaryLines(data)[i])
  {
    if data != [] {
      var init := data[..|data| - 1];
      var last := data[|data| - 1];
      LinesHaveNoNewline(init);
      if SummaryValue(last.1).Some? {
        ValueTextHasNoNewline(last.1);
        KeyLabelFacts(last.0);
      }
    }
  }

  /**
   * When no key and no float text holds a newline, splitting a non-empty
   * summary at newlines gives back exactly its lines.
   */
  lemma SummarySplitsIntoLines(data: Dict)
    requires forall i :: 0 <= i < |data| ==> NoNewline(data[i].0)
    requires forall i :: 0 <= i < |data| && data[i].1.FloatV? ==> NoNewline(data[i].1.text)
    requires SummaryLines(data) != []
    ensures Split(Join(SummaryLines(data), "\n"), '\n') == SummaryLines(data)
  {
    LinesHaveNoNewline(data);
    SplitJoin(SummaryLines(data), '\n');
  }
}
