/** `/gaps/search` end to end, from the filters a query was mapped to and
    the rows the assay query returned, to the ranked highlights and the
    sorted gaps; and the query parameters it sends. */
module GapSearch {
  import opened Wrappers
  import opened Strings
  import opened Collections
  import opened Ordering
  import opened GapFinder
  import opened GapIndex
  import opened GapScope
  import opened GapRank

  // ---------------------------------------------------------------------
  // The filters read from the parsed model answer

  /** A field of the parsed answer: absent or null, a text, or a list. */
  datatype Answer = Absent | Scalar(s: string) | Many(xs: seq<string>)

  /** `as_list`: nothing for a missing, empty or blank-list field, the list
      itself, or a one-element list for a text. */
  function AsList(x: Answer): (r: Option<seq<string>>)
    ensures r.Some? ==> r.value != []
    ensures r.None? <==> x == Absent || x == Scalar("") || x == Many([])
    ensures x.Scalar? && x.s != "" ==> r == Some([x.s])
  {
    match x
    case Absent => None
    case Scalar(s) => if s == "" then None else Some([s])
    case Many(xs) => if xs == [] then None else Some(xs)
  }

  /** `r.get("condition") or "Ambas"`, then the test against the two fixed
      conditions: a missing or empty answer becomes "Ambas", a text is kept,
      and a non-empty list cannot be looked up in a set (an unhashable
      value), so the search fails there. */
  function ConditionAnswer(x: Answer): (c: Option<string>)
    ensures x.Scalar? && x.s != "" ==> c == Some(x.s)
    ensures x == Absent || x == Scalar("") || x == Many([]) ==> c == Some("Ambas") && !Fixed(c.value)
    ensures c.None? <==> x.Many? && x.xs != []
  {
    match x
    case Absent => Some("Ambas")
    case Scalar(s) => if s == "" then Some("Ambas") else Some(s)
    case Many(xs) => if xs == [] then Some("Ambas") else None
  }

  /** The filters of a parsed answer, or none when its condition is a
      non-empty list. */
  function FiltersOf(organisms: Answer, assays: Answer, condition: Answer, tissues: Answer): (f: Option<Filters>)
    ensures f.None? <==> condition.Many? && condition.xs != []
    ensures f.Some? ==> (Given(f.value.organisms) <==> organisms != Absent && organisms != Scalar("") && organisms != Many([]))
    ensures f.Some? ==> (Given(f.value.assays) <==> assays != Absent && assays != Scalar("") && assays != Many([]))
    ensures f.Some? ==> f.value.tissues.Some? ==> f.value.tissues.value != []
  {
    match ConditionAnswer(condition)
    case None => None
    case Some(c) => Some(Filters(AsList(organisms), AsList(assays), c, AsList(tissues)))
  }

  // ---------------------------------------------------------------------
  // Query parameters

  type Param = (string, string)

  const FormatParam: Param := ("format", "json.records")

  /** The output selectors every search asks for. */
  const SearchSelectors: seq<Param> := [
    (AccessionField, ""),
    (AssayNameField, ""),
    (TechnologyField, ""),
    (OrganismField, ""),
    (ConditionField, ""),
    ("study.characteristics", "")
  ]

  /** `_add_presence`: `=field` asks for the field to be annotated. */
  function Presence(field: string): Param {
    ("=" + field, "")
  }

  /** The condition filter: a regular expression for each fixed condition,
      else the presence of the condition field. */
  function ConditionParam(condition: string): (p: Param)
    ensures Fixed(condition) ==> p.0 == ConditionField && p.1 != ""
    ensures !Fixed(condition) ==> p == Presence(ConditionField)
  {
    if condition == Spaceflight then (ConditionField, "/space.*flight|pre.*flight|post.*flight|in[- ]?flight/i")
    else if condition == GroundAnalog then (ConditionField, "/ground|analog|vivarium|control/i")
    else Presence(ConditionField)
  }

  /** The parameters of `/gaps/search`: the format, the organism and assay
      filters when given (alternatives joined with `|`), the condition
      filter, then the selectors. */
  method SearchParams(f: Filters) returns (params: seq<Param>)
    ensures |params| == 8 + (if Given(f.organisms) then 1 else 0) + (if Given(f.assays) then 1 else 0)
    ensures params[0] == FormatParam
    ensures Given(f.organisms) ==> params[1] == (OrganismField, Join(f.organisms.value, "|"))
    ensures Given(f.assays) ==> params[if Given(f.organisms) then 2 else 1] == (TechnologyField, Join(f.assays.value, "|"))
    ensures params[|params| - 7] == ConditionParam(f.condition)
    ensures params[|params| - 6..] == SearchSelectors
  {
    params := [FormatParam];
    if Given(f.organisms) {
      params := params + [(OrganismField, Join(f.organisms.value, "|"))];
    }
    if Given(f.assays) {
      params := params + [(TechnologyField, Join(f.assays.value, "|"))];
    }
    if f.condition == Spaceflight || f.condition == GroundAnalog {
      if f.condition == Spaceflight {
        params := params + [(ConditionField, "/space.*flight|pre.*flight|post.*flight|in[- ]?flight/i")];
      } else {
        params := params + [(ConditionField, "/ground|analog|vivarium|control/i")];
      }
    } else {
      params := params + [Presence(ConditionField)];
    }
    ghost var head := params;
    for i := 0 to |SearchSelectors|
      invariant params == head + SearchSelectors[..i]
    {
      params := params + [SearchSelectors[i]];
      assert SearchSelectors[..i + 1] == SearchSelectors[..i] + [SearchSelectors[i]];
    }
    assert SearchSelectors[..|SearchSelectors|] == SearchSelectors;
  }

  /** The parameters of `/gaps/options`: the format, the technology
      selector, presence of organism and condition, and the characteristics. */
  const OptionsParams: seq<Param> := [
    FormatParam,
    (TechnologyField, ""),
    Presence(OrganismField),
    Presence(ConditionField),
    ("study.characteristics", "")
  ]

  // ---------------------------------------------------------------------
  // The search

  datatype SearchResult = SearchResult(highlights: seq<Highlight>, gapsTotal: nat, gaps: seq<Combo4>)

  /** The observations a search keeps: with a fixed condition, only those
      whose coarse condition is it. */
  function Kept(rows: seq<Row>, f: Filters): seq<Obs> {
    ByCondition(Observations(rows), f.condition)
  }

  function ScopeFor(rows: seq<Row>, f: Filters): Scope {
    ScopeOf(f, Kept(rows, f), Values(rows, PickTissue))
  }

  function ContextFor(rows: seq<Row>, f: Filters): Context {
    var obs := Kept(rows, f);
    Context(IndicesOf(obs), KeysInOrder(obs, ComboKey), AssayTypes(Observations(rows)), Gaps(obs, ScopeFor(rows, f)))
  }

  /** The answer built from the highlights of the gaps: the best `top_n`
      highlights (all of them for 0), the number of gaps and the sorted gaps. */
  function Assemble(hs: seq<Highlight>, gaps: seq<Combo4>, topN: nat): SearchResult {
    SearchResult(Ranked(hs, topN), |gaps|, SortGaps(gaps))
  }

  /** With one highlight per gap, the answer keeps one highlight per gap
      cut to `top_n`, best first, and every gap once, in order. */
  lemma AssembleSpec(hs: seq<Highlight>, gaps: seq<Combo4>, topN: nat)
    requires |hs| == |gaps| && forall i | 0 <= i < |hs| :: hs[i].gap == gaps[i]
    ensures var res := Assemble(hs, gaps, topN);
      && res.gapsTotal == |res.gaps|
      && (topN == 0 || res.gapsTotal <= topN ==> |res.highlights| == res.gapsTotal)
      && (topN != 0 && res.gapsTotal > topN ==> |res.highlights| == topN)
      && (forall i, j :: 0 <= i < j < |res.highlights| ==> res.highlights[i].score >= res.highlights[j].score)
      && (forall h | h in res.highlights :: h.gap in res.gaps)
      && SortedBy(res.gaps, GapKey)
      && multiset(res.gaps) == multiset(gaps)
  {
    var res := Assemble(hs, gaps, topN);
    forall h | h in res.highlights ensures h.gap in res.gaps {
      assert h in hs;
      var i :| 0 <= i < |hs| && hs[i] == h;
      assert gaps[i] in multiset(res.gaps);
    }
  }

  /** What `/gaps/search` returns: nothing for no rows; otherwise one
      highlight per gap, ranked, and the gaps. */
  function SearchOf(rows: seq<Row>, f: Filters, topN: nat): SearchResult {
    if rows == [] then SearchResult([], 0, [])
    else
      var cx := ContextFor(rows, f);
      Assemble(Map(cx.gaps, (g: Combo4) => HighlightOf(cx, g)), cx.gaps, topN)
  }

  /** The handler of `/gaps/search` after the rows are fetched. The coverage
      rows and the threshold only feed the rows, which are not returned. */
  method GapsSearch(rows: seq<Row>, f: Filters, minDatasets: int, topN: nat) returns (res: SearchResult)
    ensures res == SearchOf(rows, f, topN)
  {
    if rows == [] {
      return SearchResult([], 0, []);
    }
    var observed, tissuesSeen, freq := ObserveRows(rows);
    var obs := ByCondition(observed, f.condition);
    var sc := ScopeOf(f, obs, tissuesSeen);
    var ix := BuildIndices(obs);
    var keys := KeysInOrder(obs, CoarseKey);
    forall k | k in keys ensures k in ix.coverageCoarse {
      KeysInOrderSpec(obs, CoarseKey, Accession, k);
    }
    var coverageRows, covered := CoverageLoop(keys, ix.coverageCoarse, sc, minDatasets);
    var gaps := CollectGaps(Universe(sc), covered);
    var cx := Context(ix, KeysInOrder(obs, ComboKey), freq, gaps);
    assert cx == ContextFor(rows, f);
    var hs := Highlights(cx);
    res := Assemble(hs, gaps, topN);
  }

  /** What a search promises: no rows give nothing; the gaps are the sorted
      combinations of the scope that no kept observation covers, at most the
      product of the scope sizes; one highlight per gap, best first, cut to
      `top_n`. */
  lemma SearchSpec(rows: seq<Row>, f: Filters, topN: nat)
    ensures var res := SearchOf(rows, f, topN);
      && (rows == [] ==> res.highlights == [] && res.gaps == [] && res.gapsTotal == 0)
      && res.gapsTotal == |res.gaps|
      && (topN == 0 || res.gapsTotal <= topN ==> |res.highlights| == res.gapsTotal)
      && (topN != 0 && res.gapsTotal > topN ==> |res.highlights| == topN)
      && (forall i, j :: 0 <= i < j < |res.highlights| ==> res.highlights[i].score >= res.highlights[j].score)
      && (forall h | h in res.highlights :: h.gap in res.gaps)
      && SortedBy(res.gaps, GapKey)
  {
    if rows != [] {
      var cx := ContextFor(rows, f);
      AssembleSpec(Map(cx.gaps, (g: Combo4) => HighlightOf(cx, g)), cx.gaps, topN);
    }
  }

  /** A returned gap is a combination of the scope that no kept observation
      covers, and every such combination is returned. */
  lemma SearchGaps(rows: seq<Row>, f: Filters, topN: nat, k: Combo4)
    requires rows != []
    ensures var sc := ScopeFor(rows, f);
      k in SearchOf(rows, f, topN).gaps <==>
        k.0 in sc.organisms && k.1 in TissueParents(sc.tissues) && k.2 in sc.conditions && k.3 in sc.assays
        && !KeySeen(Kept(rows, f), CoarseKey, k)
    ensures SearchOf(rows, f, topN).gapsTotal <= |Universe(ScopeFor(rows, f))|
  {
    var gaps := Gaps(Kept(rows, f), ScopeFor(rows, f));
    GapsSpec(Kept(rows, f), ScopeFor(rows, f), k);
    assert k in gaps <==> k in multiset(SortGaps(gaps));
  }
}
