/** The gap-finder component: the CSV report it downloads, the figures it
    shows about a search, and its submit handler. */
module GapFinderView {
  import opened Wrappers
  import opened Strings
  import opened Collections
  import opened UiCommon

  /** A ranked gap as the page receives it; the reasons are not used here. */
  datatype UiHighlight = UiHighlight(organism: string, tissue: Option<string>, condition: string, assayType: string, score: real)

  datatype UiGap = UiGap(organism: string, tissue: Option<string>, condition: string, assayType: string)

  /** The search response; a `None` list is one that is missing or not an array. */
  datatype GapResponse = GapResponse(appliedUrl: string, highlights: Option<seq<UiHighlight>>, gapsTotal: int, gaps: Option<seq<UiGap>>)

  // ---------------------------------------------------------------------
  // CSV

  /** A value that must be quoted: it holds a comma, a quote or a newline. */
  predicate NeedsQuoting(raw: string) {
    ',' in raw || '"' in raw || '\n' in raw
  }

  /** `escapeCsvValue`: `null` is empty; a value that needs quoting is put
      in quotes with its quotes doubled; any other value is unchanged. */
  function EscapeCsv(value: Option<string>): (r: string)
    ensures !NeedsQuoting(value.GetOr("")) ==> r == value.GetOr("")
    ensures NeedsQuoting(value.GetOr("")) ==> |r| >= 2 && r[0] == '"' && r[|r| - 1] == '"'
  {
    var raw := value.GetOr("");
    if NeedsQuoting(raw) then "\"" + ReplaceChar(raw, '"', "\"\"") + "\"" else raw
  }

  /** Undoing the doubling of quotes. */
  function Undouble(t: string): string
    decreases |t|
  {
    if |t| >= 2 && t[0] == '"' && t[1] == '"' then "\"" + Undouble(t[2..])
    else if t == [] then []
    else [t[0]] + Undouble(t[1..])
  }

  /** Reading one escaped value back: the quotes are dropped and the doubled
      quotes undone. */
  function UnescapeCsv(s: string): string {
    if |s| >= 2 && s[0] == '"' && s[|s| - 1] == '"' then Undouble(s[1..|s| - 1]) else s
  }

  lemma {:induction false} UndoubleDoubled(raw: string)
    ensures Undouble(ReplaceChar(raw, '"', "\"\"")) == raw
    decreases |raw|
  {
    if raw != [] {
      var rest := ReplaceChar(raw[1..], '"', "\"\"");
      UndoubleDoubled(raw[1..]);
      if raw[0] == '"' {
        assert ReplaceChar(raw, '"', "\"\"") == "\"\"" + rest;
        assert ("\"\"" + rest)[2..] == rest;
      } else {
        assert ReplaceChar(raw, '"', "\"\"") == [raw[0]] + rest;
        assert ([raw[0]] + rest)[1..] == rest;
      }
      assert raw == [raw[0]] + raw[1..];
    }
  }

  /** Escaping is undone by unescaping. */
  lemma EscapeCsvRoundTrip(value: Option<string>)
    ensures UnescapeCsv(EscapeCsv(value)) == value.GetOr("")
  {
    var raw := value.GetOr("");
    if NeedsQuoting(raw) {
      var d := ReplaceChar(raw, '"', "\"\"");
      assert EscapeCsv(value)[1..|EscapeCsv(value)| - 1] == d;
      UndoubleDoubled(raw);
    } else if raw != [] {
      assert raw[0] in raw;
    }
  }

  // A CSV reader (RFC 4180 with `\n` between records), to state what the
  // report reads back as.

  datatype Mode = FieldStart | Unquoted | Quoted | AfterQuote

  /** Records read so far, the fields of the current record, the current
      field and where in it the reader is. */
  datatype Reader = Reader(records: seq<seq<string>>, fields: seq<string>, field: string, mode: Mode)

  function Step(st: Reader, c: char): Reader {
    match st.mode
    case FieldStart =>
      if c == '"' then st.(mode := Quoted)
      else if c == ',' then Reader(st.records, st.fields + [st.field], [], FieldStart)
      else if c == '\n' then Reader(st.records + [st.fields + [st.field]], [], [], FieldStart)
      else st.(field := st.field + [c], mode := Unquoted)
    case Unquoted =>
      if c == ',' then Reader(st.records, st.fields + [st.field], [], FieldStart)
      else if c == '\n' then Reader(st.records + [st.fields + [st.field]], [], [], FieldStart)
      else st.(field := st.field + [c])
    case Quoted =>
      if c == '"' then st.(mode := AfterQuote) else st.(field := st.field + [c])
    case AfterQuote =>
      if c == '"' then st.(field := st.field + [c], mode := Quoted)
      else if c == ',' then Reader(st.records, st.fields + [st.field], [], FieldStart)
      else if c == '\n' then Reader(st.records + [st.fields + [st.field]], [], [], FieldStart)
      else st.(field := st.field + [c], mode := Unquoted)
  }

  function Run(st: Reader, s: string): Reader
    decreases |s|
  {
    if s == [] then st else Run(Step(st, s[0]), s[1..])
  }

  /** The records of a CSV text. */
  function ParseCsv(text: string): seq<seq<string>> {
    var st := Run(Reader([], [], [], FieldStart), text);
    st.records + [st.fields + [st.field]]
  }

  lemma {:induction false} RunAppend(st: Reader, a: string, b: string)
    ensures Run(st, a + b) == Run(Run(st, a), b)
    decreases |a|
  {
    if a != [] {
      assert (a + b)[0] == a[0];
      assert (a + b)[1..] == a[1..] + b;
      RunAppend(Step(st, a[0]), a[1..], b);
    } else {
      assert a + b == b;
    }
  }

  lemma RunOne(st: Reader, c: char)
    ensures Run(st, [c]) == Step(st, c)
  {
    assert [c][1..] == [];
  }

  /** The reader holds `raw` as the current field, ready to close it. */
  predicate Holding(st: Reader, records: seq<seq<string>>, fields: seq<string>, raw: string) {
    && st.records == records && st.fields == fields && st.field == raw
    && (st.mode == Unquoted || st.mode == AfterQuote || (st.mode == FieldStart && raw == []))
  }

  /** A comma closes the held field; a newline closes the record too. */
  lemma Close(st: Reader, records: seq<seq<string>>, fields: seq<string>, raw: string)
    requires Holding(st, records, fields, raw)
    ensures Run(st, ",") == Reader(records, fields + [raw], [], FieldStart)
    ensures Run(st, "\n") == Reader(records + [fields + [raw]], [], [], FieldStart)
  {
    RunOne(st, ',');
    RunOne(st, '\n');
  }

  lemma {:induction false} UnquotedRun(st: Reader, t: string)
    requires st.mode == Unquoted && !NeedsQuoting(t)
    ensures Run(st, t) == st.(field := st.field + t)
    decreases |t|
  {
    if t != [] {
      assert t[0] in t;
      assert !NeedsQuoting(t[1..]) by {
        assert forall c | c in t[1..] :: c in t;
      }
      UnquotedRun(Step(st, t[0]), t[1..]);
      assert st.field + [t[0]] + t[1..] == st.field + t;
    }
  }

  lemma {:induction false} QuotedRun(st: Reader, raw: string)
    requires st.mode == Quoted
    ensures Run(st, ReplaceChar(raw, '"', "\"\"")) == st.(field := st.field + raw)
    decreases |raw|
  {
    if raw != [] {
      var rest := ReplaceChar(raw[1..], '"', "\"\"");
      if raw[0] == '"' {
        assert ReplaceChar(raw, '"', "\"\"") == "\"\"" + rest;
        RunAppend(st, "\"\"", rest);
        RunAppend(st, "\"", "\"");
        RunOne(st, '"');
        RunOne(st.(mode := AfterQuote), '"');
        assert "\"\"" == "\"" + "\"";
        QuotedRun(st.(field := st.field + "\""), raw[1..]);
      } else {
        assert ReplaceChar(raw, '"', "\"\"") == [raw[0]] + rest;
        RunAppend(st, [raw[0]], rest);
        RunOne(st, raw[0]);
        QuotedRun(st.(field := st.field + [raw[0]]), raw[1..]);
      }
      assert st.field + [raw[0]] + raw[1..] == st.field + raw;
    }
  }

  /** Reading an escaped value from the start of a field holds that value. */
  lemma EscapedField(records: seq<seq<string>>, fields: seq<string>, value: Option<string>)
    ensures Holding(Run(Reader(records, fields, [], FieldStart), EscapeCsv(value)), records, fields, value.GetOr(""))
  {
    var st := Reader(records, fields, [], FieldStart);
    var raw := value.GetOr("");
    if NeedsQuoting(raw) {
      var d := ReplaceChar(raw, '"', "\"\"");
      RunAppend(st, "\"", d + "\"");
      RunAppend(Run(st, "\""), d, "\"");
      RunOne(st, '"');
      QuotedRun(st.(mode := Quoted), raw);
      RunOne(st.(field := raw, mode := Quoted), '"');
      assert "\"" + d + "\"" == "\"" + (d + "\"");
    } else if raw != [] {
      assert raw[0] in raw;
      assert !NeedsQuoting(raw[1..]) by {
        assert forall c | c in raw[1..] :: c in raw;
      }
      assert EscapeCsv(value) == raw;
      assert raw[0] != '"' && raw[0] != ',' && raw[0] != '\n';
      assert Step(st, raw[0]) == st.(field := [raw[0]], mode := Unquoted);
      assert Run(st, raw) == Run(Step(st, raw[0]), raw[1..]);
      UnquotedRun(st.(field := [raw[0]], mode := Unquoted), raw[1..]);
      assert [raw[0]] + raw[1..] == raw;
    }
  }

  /** One line: the escaped values joined by commas. */
  function CsvLine(values: seq<Option<string>>): string {
    Join(Map(values, EscapeCsv), ",")
  }

  function Texts(values: seq<Option<string>>): seq<string> {
    Map(values, (v: Option<string>) => v.GetOr(""))
  }

  lemma CsvLineCons(values: seq<Option<string>>)
    requires |values| >= 2
    ensures CsvLine(values) == EscapeCsv(values[0]) + ("," + CsvLine(values[1..]))
  {
    assert Map(values, EscapeCsv)[1..] == Map(values[1..], EscapeCsv);
  }

  lemma TextsCons(values: seq<Option<string>>)
    requires |values| >= 2
    ensures Texts(values[..|values| - 1]) == [values[0].GetOr("")] + Texts(values[1..][..|values| - 2])
  {
  }

  lemma {:induction false} LineRun(records: seq<seq<string>>, fields: seq<string>, values: seq<Option<string>>)
    requires values != []
    ensures Holding(Run(Reader(records, fields, [], FieldStart), CsvLine(values)),
                    records, fields + Texts(values[..|values| - 1]), values[|values| - 1].GetOr(""))
    decreases |values|
  {
    var st := Reader(records, fields, [], FieldStart);
    EscapedField(records, fields, values[0]);
    var head := EscapeCsv(values[0]);
    if |values| > 1 {
      var rest := values[1..];
      CsvLineCons(values);
      RunAppend(st, head, "," + CsvLine(rest));
      RunAppend(Run(st, head), ",", CsvLine(rest));
      Close(Run(st, head), records, fields, values[0].GetOr(""));
      LineRun(records, fields + [values[0].GetOr("")], rest);
      TextsCons(values);
    } else {
      assert CsvLine(values) == head;
      assert Texts(values[..0]) == [];
    }
  }

  function CsvLines(lines: seq<seq<Option<string>>>): seq<string> {
    Map(lines, CsvLine)
  }

  lemma CsvLinesCons(lines: seq<seq<Option<string>>>)
    requires |lines| >= 2
    ensures Join(CsvLines(lines), "\n") == CsvLine(lines[0]) + ("\n" + Join(CsvLines(lines[1..]), "\n"))
  {
    assert CsvLines(lines)[1..] == CsvLines(lines[1..]);
  }

  lemma TextsLast(values: seq<Option<string>>)
    requires values != []
    ensures Texts(values[..|values| - 1]) + [values[|values| - 1].GetOr("")] == Texts(values)
  {
  }

  lemma RowsCons(lines: seq<seq<Option<string>>>)
    requires |lines| >= 2
    ensures Map(lines[..|lines| - 1], Texts) == [Texts(lines[0])] + Map(lines[1..][..|lines| - 2], Texts)
  {
  }

  /** Holding the last field of the last line after a run of lines. */
  predicate AtLastField(st: Reader, records: seq<seq<string>>, lines: seq<seq<Option<string>>>)
    requires lines != [] && lines[|lines| - 1] != []
  {
    var last := lines[|lines| - 1];
    Holding(st, records + Map(lines[..|lines| - 1], Texts), Texts(last[..|last| - 1]), last[|last| - 1].GetOr(""))
  }

  lemma {:induction false} LinesRun(records: seq<seq<string>>, lines: seq<seq<Option<string>>>)
    requires lines != [] && forall i :: 0 <= i < |lines| ==> lines[i] != []
    ensures AtLastField(Run(Reader(records, [], [], FieldStart), Join(CsvLines(lines), "\n")), records, lines)
    decreases |lines|
  {
    var st := Reader(records, [], [], FieldStart);
    var first := lines[0];
    var head := CsvLine(first);
    LineRun(records, [], first);
    if |lines| > 1 {
      var rest := lines[1..];
      var tail := Join(CsvLines(rest), "\n");
      CsvLinesCons(lines);
      RunAppend(st, head, "\n" + tail);
      RunAppend(Run(st, head), "\n", tail);
      Close(Run(st, head), records, Texts(first[..|first| - 1]), first[|first| - 1].GetOr(""));
      TextsLast(first);
      assert [] + Texts(first[..|first| - 1]) == Texts(first[..|first| - 1]);
      LinesRun(records + [Texts(first)], rest);
      RowsCons(lines);
      assert records + [Texts(first)] + Map(rest[..|rest| - 1], Texts) == records + Map(lines[..|lines| - 1], Texts);
    } else {
      assert Join(CsvLines(lines), "\n") == head;
      assert lines[..0] == [];
      assert records + Map(lines[..0], Texts) == records;
    }
  }

  /** Lines of escaped values read back as those values, line by line. */
  lemma ParseLines(lines: seq<seq<Option<string>>>)
    requires lines != [] && forall i :: 0 <= i < |lines| ==> lines[i] != []
    ensures ParseCsv(Join(CsvLines(lines), "\n")) == Map(lines, Texts)
  {
    LinesRun([], lines);
    var last := lines[|lines| - 1];
    TextsLast(last);
    assert lines == lines[..|lines| - 1] + [last];
    assert Map(lines, Texts) == Map(lines[..|lines| - 1], Texts) + [Texts(last)];
  }

  const HeaderTexts: seq<string> := ["Organism", "Tissue", "Condition", "Assay Type"]

  const HeaderNames: seq<Option<string>> := Map(HeaderTexts, (t: string) => Some(t))

  /** The four values of a gap's line; a missing tissue is empty. */
  function GapValues(g: UiGap): seq<Option<string>> {
    [Some(g.organism), g.tissue, Some(g.condition), Some(g.assayType)]
  }

  /** `handleDownloadReport`: no report without gaps; else the header line
      and one line per gap, joined by newlines. */
  function Report(results: Option<GapResponse>): Option<string> {
    if results.None? || results.value.gaps.None? || results.value.gaps.value == [] then None
    else Some(Join([Join(HeaderTexts, ",")] + Map(results.value.gaps.value, (g: UiGap) => CsvLine(GapValues(g))), "\n"))
  }

  /** The header names need no quoting, so the header is their CSV line. */
  lemma HeaderLine()
    ensures CsvLine(HeaderNames) == Join(HeaderTexts, ",")
  {
    forall i | 0 <= i < 4 ensures EscapeCsv(HeaderNames[i]) == HeaderTexts[i] {
      PlainHeader(i);
    }
    assert Map(HeaderNames, EscapeCsv) == HeaderTexts;
  }

  lemma PlainHeader(i: int)
    requires 0 <= i < 4
    ensures HeaderNames[i] == Some(HeaderTexts[i]) && !NeedsQuoting(HeaderTexts[i])
  {
    var t := HeaderTexts[i];
    assert forall k | 0 <= k < |t| :: t[k] != ',' && t[k] != '"' && t[k] != '\n';
  }

  /** The lines of the report: the header's names, then each gap's values. */
  function ReportValues(gaps: seq<UiGap>): seq<seq<Option<string>>> {
    [HeaderNames] + Map(gaps, GapValues)
  }

  lemma ReportIsLines(gaps: seq<UiGap>)
    requires gaps != []
    ensures Report(Some(GapResponse("", None, 0, Some(gaps)))) == Some(Join(CsvLines(ReportValues(gaps)), "\n"))
  {
    HeaderLine();
    assert CsvLines(ReportValues(gaps)) == [Join(HeaderTexts, ",")] + Map(gaps, (g: UiGap) => CsvLine(GapValues(g)));
  }

  lemma ReportIgnoresRest(r: GapResponse)
    ensures Report(Some(r)) == Report(Some(GapResponse("", None, 0, r.gaps)))
  {
  }

  lemma HeaderRow()
    ensures Texts(HeaderNames) == HeaderTexts
  {
  }

  /** The report reads back as the header and, for each gap in order, its
      organism, tissue (empty when missing), condition and assay type. */
  lemma ReportReadsBack(results: Option<GapResponse>)
    ensures Report(results).None? <==> results.None? || results.value.gaps.None? || results.value.gaps.value == []
    ensures Report(results).Some? ==>
      var gaps := results.value.gaps.value;
      var rows := ParseCsv(Report(results).value);
      && |rows| == |gaps| + 1
      && rows[0] == HeaderTexts
      && forall i :: 0 <= i < |gaps| ==>
           rows[i + 1] == [gaps[i].organism, gaps[i].tissue.GetOr(""), gaps[i].condition, gaps[i].assayType]
  {
    if Report(results).Some? {
      var gaps := results.value.gaps.value;
      var lines := ReportValues(gaps);
      ReportIgnoresRest(results.value);
      ReportIsLines(gaps);
      assert forall i :: 0 <= i < |lines| ==> lines[i] != [];
      ParseLines(lines);
      HeaderRow();
      var rows := Map(lines, Texts);
      forall i | 0 <= i < |gaps|
        ensures rows[i + 1] == [gaps[i].organism, gaps[i].tissue.GetOr(""), gaps[i].condition, gaps[i].assayType]
      {
        assert lines[i + 1] == GapValues(gaps[i]);
      }
    }
  }

  // ---------------------------------------------------------------------
  // Figures

  function MaxScore(acc: real, hs: seq<UiHighlight>): (m: real)
    ensures m >= acc
    ensures forall i :: 0 <= i < |hs| ==> m >= hs[i].score
    ensures m == acc || exists i :: 0 <= i < |hs| && m == hs[i].score
    decreases |hs|
  {
    if hs == [] then acc
    else
      var m := MaxScore(if hs[0].score > acc then hs[0].score else acc, hs[1..]);
      assert forall i :: 1 <= i < |hs| ==> hs[i] == hs[1..][i - 1];
      m
  }

  /** `topScore`: none without highlights, else the largest score. */
  function TopScore(highlights: Option<seq<UiHighlight>>): (r: Option<real>)
    ensures r.None? <==> highlights.None? || highlights.value == []
    ensures r.Some? ==> forall i :: 0 <= i < |highlights.value| ==> r.value >= highlights.value[i].score
    ensures r.Some? ==> exists i :: 0 <= i < |highlights.value| && r.value == highlights.value[i].score
  {
    if highlights.None? || highlights.value == [] then None
    else Some(MaxScore(highlights.value[0].score, highlights.value))
  }

  /** `gapSegments`: the first twelve gaps, in order. */
  function GapSegments(gaps: Option<seq<UiGap>>): (r: seq<UiGap>)
    ensures gaps.None? ==> r == []
    ensures gaps.Some? ==> |r| == (if |gaps.value| < 12 then |gaps.value| else 12) && r == gaps.value[..|r|]
  {
    if gaps.None? || gaps.value == [] then [] else Take(gaps.value, 12)
  }

  /** A missing tissue prints as "null" in the key. */
  function TissueText(t: Option<string>): string {
    if t.Some? then t.value else "null"
  }

  /** The investable target of a highlight: organism, tissue and assay type
      joined with `|`. */
  function TargetKey(h: UiHighlight): string {
    h.organism + "|" + TissueText(h.tissue) + "|" + h.assayType
  }

  /** `uniqueInvestableTargets`: the number of different target keys;
      none without highlights. */
  function UniqueTargets(highlights: Option<seq<UiHighlight>>): (n: nat)
    ensures highlights.None? ==> n == 0
    ensures highlights.Some? ==> n <= |highlights.value|
  {
    if highlights.None? then 0 else |Distinct(Map(highlights.value, TargetKey))|
  }

  /** The condition does not count: highlights that differ only in it give
      as many targets. */
  lemma UniqueTargetsIgnoreCondition(hs: seq<UiHighlight>, conditions: seq<string>)
    requires |conditions| == |hs|
    ensures UniqueTargets(Some(seq(|hs|, i requires 0 <= i < |hs| => hs[i].(condition := conditions[i])))) == UniqueTargets(Some(hs))
  {
    var hs' := seq(|hs|, i requires 0 <= i < |hs| => hs[i].(condition := conditions[i]));
    assert Map(hs', TargetKey) == Map(hs, TargetKey);
  }

  /** With names free of `|` and no tissue written "null", two highlights
      share a target exactly when organism, tissue and assay type agree. */
  lemma TargetKeyInjective(a: UiHighlight, b: UiHighlight)
    requires '|' !in a.organism && '|' !in TissueText(a.tissue) && '|' !in a.assayType
    requires '|' !in b.organism && '|' !in TissueText(b.tissue) && '|' !in b.assayType
    requires a.tissue != Some("null") && b.tissue != Some("null")
    ensures TargetKey(a) == TargetKey(b) <==> (a.organism, a.tissue, a.assayType) == (b.organism, b.tissue, b.assayType)
  {
    if TargetKey(a) == TargetKey(b) {
      var pa := [a.organism, TissueText(a.tissue), a.assayType];
      var pb := [b.organism, TissueText(b.tissue), b.assayType];
      assert Join(pa, "|") == TargetKey(a) by {
        assert Join(pa[2..], "|") == a.assayType;
      }
      assert Join(pb, "|") == TargetKey(b) by {
        assert Join(pb[2..], "|") == b.assayType;
      }
      SplitJoin(pa, '|');
      SplitJoin(pb, '|');
      assert pa == pb;
    }
  }

  // ---------------------------------------------------------------------
  // Submitting

  /** The outcome of `gaps.search`: no response, the response's `data`, or
      a failure. */
  datatype SearchReply = NoResponse | SearchData(data: Option<GapResponse>) | SearchFailed(failure: Failure)

  const BlankPrompt := "Describe the kind of opportunity you want to explore before launching the search."
  const SamplePrompt := "Show me proteomics gaps where spaceflight is underserved but ground data exists"

  class GapFinderPage {
    var prompt: string
    var loading: bool
    var error: Option<string>
    var results: Option<GapResponse>
    var isSample: bool

    constructor()
      ensures prompt == "" && !loading && error == None && results == None && !isSample
    {
      prompt := "";
      loading := false;
      error := None;
      results := None;
      isSample := false;
    }

    /** `handleSubmit`: a blank prompt sets the error and clears the results
        without a search (`query` is `None`). Otherwise the trimmed prompt is
        searched for; a response whose data has a highlight list is shown,
        and anything else sets an error and clears the results. */
    method Submit(reply: SearchReply) returns (query: Option<string>)
      modifies this
      ensures query.None? <==> Strip(old(prompt)) == ""
      ensures query.Some? ==> query.value == Strip(old(prompt)) && !loading
      ensures prompt == old(prompt) && !isSample
      ensures query.None? ==> error == Some(BlankPrompt) && results == None && loading == old(loading)
      ensures query.Some? && reply.SearchData? && reply.data.Some? && reply.data.value.highlights.Some? ==>
        results == reply.data && error == None
      ensures query.Some? && reply.NoResponse? ==> results == None && error == Some("No response from the Gap Finder service.")
      ensures query.Some? && reply.SearchData? && (reply.data.None? || reply.data.value.highlights.None?) ==>
        results == None && error == Some("No opportunities were found for that briefing.")
      ensures query.Some? && reply.SearchFailed? ==>
        results == None && error == Some(MessageOf(reply.failure, "We could not map the gaps right now."))
    {
      if Strip(prompt) == "" {
        error := Some(BlankPrompt);
        results := None;
        isSample := false;
        return None;
      }
      error := None;
      loading := true;
      isSample := false;
      // `reply` is what `gaps.search` gave for the trimmed prompt
      match reply {
        case NoResponse =>
          error := Some("No response from the Gap Finder service.");
          results := None;
        case SearchData(data) =>
          if data.None? || data.value.highlights.None? {
            error := Some("No opportunities were found for that briefing.");
            results := None;
          } else {
            results := data;
          }
        case SearchFailed(f) =>
          error := Some(MessageOf(f, "We could not map the gaps right now."));
          results := None;
      }
      loading := false;
      return Some(Strip(prompt));
    }

    /** `handleUseSample`: fills in the sample prompt and clears the error. */
    method UseSample()
      modifies this
      ensures prompt == SamplePrompt && error == None
      ensures loading == old(loading) && results == old(results) && isSample == old(isSample)
    {
      prompt := SamplePrompt;
      error := None;
    }

    /** Whether the page shows the gap list and the report button. */
    function HasGaps(): (b: bool)
      reads this
      ensures b <==> Report(results).Some?
    {
      results.Some? && results.value.gaps.Some? && results.value.gaps.value != []
    }
  }
}
