/** The Gap Finder's record normalisers and the `/gaps/options` listing: how
    one OSDR assay record is read into an organism, a condition, an assay
    technology and a tissue. */
module GapFinder {
  import opened Wrappers
  import opened Strings
  import opened Collections
  import opened Ordering

  /** One `json.records` row. A field that is absent and a field that is
      `null` both read as absent. */
  type Row = map<string, string>

  /** `row.get(k)`. */
  function Get(row: Row, k: string): Option<string> {
    if k in row then Some(row[k]) else None
  }

  const OrganismField := "study.characteristics.organism"
  const ConditionField := "study.factor value.spaceflight"
  const TechnologyField := "investigation.study assays.study assay technology type"
  const AccessionField := "id.accession"
  const AssayNameField := "id.assay name"

  const Spaceflight := "Spaceflight"
  const GroundAnalog := "Ground/Analog"

  // ---------------------------------------------------------------------
  // _norm_str

  /** The spellings of a missing value that are read as no value. */
  predicate NullWord(s: string) {
    s == "nan" || s == "none" || s == "null"
  }

  /** `_norm_str`: no value for `None`, for blank text and for
      nan/none/null in any case; otherwise the stripped text. */
  function NormStr(x: Option<string>): (r: Option<string>)
    ensures x.None? ==> r.None?
    ensures x.Some? && (Strip(x.value) == [] || NullWord(Lower(Strip(x.value)))) ==> r.None?
    ensures r.Some? ==> x.Some? && r.value == Strip(x.value)
    ensures r.Some? ==> r.value != [] && !IsSpace(r.value[0]) && !IsSpace(r.value[|r.value| - 1])
    ensures r.Some? ==> !NullWord(Lower(r.value))
  {
    if x.None? then None
    else
      var s := Strip(x.value);
      if s == [] || NullWord(Lower(s)) then None else Some(s)
  }

  /** Normalising twice is normalising once. */
  lemma NormStrIdempotent(x: Option<string>)
    ensures NormStr(NormStr(x)) == NormStr(x)
  {
    if NormStr(x).Some? {
      StripIdempotent(x.value);
    }
  }

  /** A text that is already stripped, non-empty and not a null word is
      its own normal form. */
  lemma NormStrOfNormal(s: string)
    requires s != [] && !IsSpace(s[0]) && !IsSpace(s[|s| - 1]) && !NullWord(Lower(s))
    ensures NormStr(Some(s)) == Some(s)
  {
    StripOfStripped(s);
  }

  // ---------------------------------------------------------------------
  // _norm_condition and _coarse_condition

  /** The text mentions both "space" and "flight", in any case. */
  predicate SpaceFlightWords(v: string) {
    Contains(Lower(v), "space") && Contains(Lower(v), "flight")
  }

  /** The text mentions "ground" or "analog", in any case. */
  predicate GroundWords(v: string) {
    Contains(Lower(v), "ground") || Contains(Lower(v), "analog")
  }

  /** The text mentions `phase` and "flight", in any case. */
  predicate PhaseWords(v: string, phase: string) {
    Contains(Lower(v), phase) && Contains(Lower(v), "flight")
  }

  /** None of the tests before the in-flight one holds. */
  predicate BeforeInFlight(v: string) {
    !SpaceFlightWords(v) && !GroundWords(v) && !PhaseWords(v, "pre") && !PhaseWords(v, "post")
  }

  /** The labels `_norm_condition` writes in place of the input. */
  predicate ConditionLabel(s: string) {
    s == Spaceflight || s == GroundAnalog || s == "Pre-flight" || s == "Post-flight" || s == "In-flight"
  }

  /** The label chain of `_norm_condition` on a normalised value `v`, in the
      order the source tests it: space-and-flight first, then ground or
      analog, then pre-, post- and in-flight. */
  function ConditionOf(v: string): (r: string)
    ensures ConditionLabel(r) || r == v
    ensures SpaceFlightWords(v) ==> r == Spaceflight
    ensures !SpaceFlightWords(v) && GroundWords(v) ==> r == GroundAnalog
    ensures !SpaceFlightWords(v) && !GroundWords(v) && PhaseWords(v, "pre") ==> r == "Pre-flight"
    ensures !SpaceFlightWords(v) && !GroundWords(v) && !PhaseWords(v, "pre") && PhaseWords(v, "post") ==> r == "Post-flight"
    ensures BeforeInFlight(v) && (PhaseWords(v, "in") || Contains(Lower(v), "in-flight")) ==> r == "In-flight"
    ensures BeforeInFlight(v) && !PhaseWords(v, "in") && !Contains(Lower(v), "in-flight") ==> r == v
  {
    var low := Lower(v);
    if Contains(low, "space") && Contains(low, "flight") then Spaceflight
    else if Contains(low, "ground") || Contains(low, "analog") then GroundAnalog
    else if Contains(low, "pre") && Contains(low, "flight") then "Pre-flight"
    else if Contains(low, "post") && Contains(low, "flight") then "Post-flight"
    else if (Contains(low, "in") && Contains(low, "flight")) || Contains(low, "in-flight") then "In-flight"
    else v
  }

  /** `_norm_condition`. */
  function NormCondition(v: Option<string>): (r: Option<string>)
    ensures r.None? <==> NormStr(v).None?
    ensures r.Some? ==> ConditionLabel(r.value) || r == NormStr(v)
    ensures NormStr(v).Some? ==> r == Some(ConditionOf(NormStr(v).value))
  {
    var n := NormStr(v);
    if n.None? then None else Some(ConditionOf(n.value))
  }

  /** Every label `_norm_condition` writes is normalised to itself. */
  lemma ConditionLabelFixed(s: string)
    requires ConditionLabel(s)
    ensures NormCondition(Some(s)) == Some(s)
  {
    NormStrOfNormal(s);
    if s == Spaceflight {
      SpaceflightText(s);
    } else if s == GroundAnalog {
      GroundAnalogText(s);
    } else if s == "Pre-flight" {
      PreFlightText(s);
    } else if s == "Post-flight" {
      PostFlightText(s);
    } else {
      InFlightText(s);
    }
  }

  lemma SpaceflightText(v: string)
    requires v == "Spaceflight"
    ensures Contains(Lower(v), "space") && Contains(Lower(v), "flight")
  {
    SpaceflightLow(Lower(v));
  }

  lemma SpaceflightLow(low: string)
    requires low == "spaceflight"
    ensures Contains(low, "space") && Contains(low, "flight")
  {
    ContainsAt(low, "space", 0);
    assert low[5..11] == "flight";
    ContainsAt(low, "flight", 5);
  }

  lemma GroundAnalogText(v: string)
    requires v == "Ground/Analog"
    ensures !Contains(Lower(v), "space") && Contains(Lower(v), "ground")
  {
    GroundAnalogLow(Lower(v));
  }

  lemma GroundAnalogLow(low: string)
    requires low == "ground/analog"
    ensures !Contains(low, "space") && Contains(low, "ground")
  {
    NotContaining(low, "space", 's');
    ContainsAt(low, "ground", 0);
  }

  lemma PreFlightText(v: string)
    requires v == "Pre-flight"
    ensures !Contains(Lower(v), "space") && !Contains(Lower(v), "ground") && !Contains(Lower(v), "analog")
    ensures Contains(Lower(v), "pre") && Contains(Lower(v), "flight")
  {
    PreFlightLow(Lower(v));
  }

  lemma PreFlightLow(low: string)
    requires low == "pre-flight"
    ensures !Contains(low, "space") && !Contains(low, "ground") && !Contains(low, "analog")
    ensures Contains(low, "pre") && Contains(low, "flight")
  {
    PreFlightNoOther(low);
    ContainsAt(low, "pre", 0);
    assert low[4..10] == "flight";
    ContainsAt(low, "flight", 4);
  }

  lemma PreFlightNoOther(low: string)
    requires low == "pre-flight"
    ensures !Contains(low, "space") && !Contains(low, "ground") && !Contains(low, "analog")
  {
    NotContaining(low, "space", 's');
    NotContaining(low, "ground", 'o');
    NotContaining(low, "analog", 'a');
  }

  lemma PostFlightText(v: string)
    requires v == "Post-flight"
    ensures !Contains(Lower(v), "space") && !Contains(Lower(v), "ground") && !Contains(Lower(v), "analog")
    ensures !Contains(Lower(v), "pre") && Contains(Lower(v), "post") && Contains(Lower(v), "flight")
  {
    PostFlightLow(Lower(v));
  }

  lemma PostFlightLow(low: string)
    requires low == "post-flight"
    ensures !Contains(low, "space") && !Contains(low, "ground") && !Contains(low, "analog")
    ensures !Contains(low, "pre") && Contains(low, "post") && Contains(low, "flight")
  {
    PostFlightNoOther(low);
    ContainsAt(low, "post", 0);
    assert low[5..11] == "flight";
    ContainsAt(low, "flight", 5);
  }

  lemma PostFlightNoOther(low: string)
    requires low == "post-flight"
    ensures !Contains(low, "space") && !Contains(low, "ground") && !Contains(low, "analog")
    ensures !Contains(low, "pre")
  {
    NotContaining(low, "space", 'a');
    NotContaining(low, "ground", 'r');
    NotContaining(low, "analog", 'a');
    NotContaining(low, "pre", 'r');
  }

  lemma InFlightText(v: string)
    requires v == "In-flight"
    ensures !Contains(Lower(v), "space") && !Contains(Lower(v), "ground") && !Contains(Lower(v), "analog")
    ensures !Contains(Lower(v), "pre") && !Contains(Lower(v), "post") && Contains(Lower(v), "in") && Contains(Lower(v), "flight")
  {
    InFlightLow(Lower(v));
  }

  lemma InFlightLow(low: string)
    requires low == "in-flight"
    ensures !Contains(low, "space") && !Contains(low, "ground") && !Contains(low, "analog")
    ensures !Contains(low, "pre") && !Contains(low, "post") && Contains(low, "in") && Contains(low, "flight")
  {
    InFlightNoOther(low);
    ContainsAt(low, "in", 0);
    assert low[3..9] == "flight";
    ContainsAt(low, "flight", 3);
  }

  lemma InFlightNoOther(low: string)
    requires low == "in-flight"
    ensures !Contains(low, "space") && !Contains(low, "ground") && !Contains(low, "analog")
    ensures !Contains(low, "pre") && !Contains(low, "post")
  {
    NotContaining(low, "space", 's');
    NotContaining(low, "ground", 'o');
    NotContaining(low, "analog", 'a');
    InFlightNoPhase(low);
  }

  lemma InFlightNoPhase(low: string)
    requires low == "in-flight"
    ensures !Contains(low, "pre") && !Contains(low, "post")
  {
    NotContaining(low, "pre", 'p');
    NotContaining(low, "post", 'p');
  }

  /** A needle with a character the text lacks does not occur in it. */
  lemma NotContaining(s: string, sub: string, c: char)
    requires c in sub && c !in s
    ensures !Contains(s, sub)
  {
    if Contains(s, sub) {
      ContainsChar(s, sub, c);
    }
  }

  /** `_norm_condition` is idempotent: its output is its own normal form. */
  lemma NormConditionIdempotent(v: Option<string>)
    ensures NormCondition(v).Some? ==> NormCondition(NormCondition(v)) == NormCondition(v)
  {
    var r := NormCondition(v);
    if r.Some? {
      if ConditionLabel(r.value) {
        ConditionLabelFixed(r.value);
      } else {
        NormStrIdempotent(v);
      }
    }
  }

  /** `_coarse_condition`: Spaceflight for space-and-flight and for the three
      flight phases, Ground/Analog for ground, analog, vivarium or control,
      and nothing otherwise. */
  function CoarseCondition(c: Option<string>): (r: Option<string>)
    ensures r == None || r == Some(Spaceflight) || r == Some(GroundAnalog)
    ensures c.None? || c == Some("") ==> r.None?
    ensures c.Some? && c.value != "" && CoarseFlight(Lower(c.value)) ==> r == Some(Spaceflight)
    ensures c.Some? && c.value != "" && !CoarseFlight(Lower(c.value)) && CoarseGround(Lower(c.value)) ==> r == Some(GroundAnalog)
    ensures c.Some? && c.value != "" && !CoarseFlight(Lower(c.value)) && !CoarseGround(Lower(c.value)) ==> r.None?
  {
    if c.None? || c.value == "" then None
    else
      var lc := Lower(c.value);
      if CoarseFlight(lc) then Some(Spaceflight)
      else if CoarseGround(lc) then Some(GroundAnalog)
      else None
  }

  /** The Spaceflight test of `_coarse_condition` on lower-cased text. */
  predicate CoarseFlight(lc: string) {
    (Contains(lc, "space") && Contains(lc, "flight")) || Contains(lc, "pre-flight")
    || Contains(lc, "post-flight") || Contains(lc, "in-flight")
  }

  /** The Ground/Analog test of `_coarse_condition` on lower-cased text. */
  predicate CoarseGround(lc: string) {
    Contains(lc, "ground") || Contains(lc, "analog") || Contains(lc, "vivarium") || Contains(lc, "control")
  }

  /** The coarse condition of an observation: `_coarse_condition`, else
      Spaceflight when the condition mentions flight, else Ground/Analog. */
  function ObservedCoarse(condNorm: string): (r: string)
    ensures r == Spaceflight || r == GroundAnalog
    ensures CoarseCondition(Some(condNorm)).Some? ==> r == CoarseCondition(Some(condNorm)).value
    ensures CoarseCondition(Some(condNorm)).None? ==> (r == Spaceflight <==> Contains(Lower(condNorm), "flight"))
  {
    var c := CoarseCondition(Some(condNorm));
    if c.Some? then c.value
    else if Contains(Lower(condNorm), "flight") then Spaceflight
    else GroundAnalog
  }

  /** The three flight phases collapse to Spaceflight, and Ground/Analog to
      itself. */
  lemma CoarseOfLabels(s: string)
    requires ConditionLabel(s)
    ensures CoarseCondition(Some(s)) == Some(if s == GroundAnalog then GroundAnalog else Spaceflight)
  {
    var lc := Lower(s);
    if s == Spaceflight {
      SpaceflightText(s);
    } else if s == GroundAnalog {
      assert lc == "ground/analog";
      CoarseGroundAnalogText(lc);
    } else if s == "Pre-flight" {
      assert lc == "pre-flight";
      ContainsAt(lc, "pre-flight", 0);
    } else if s == "Post-flight" {
      assert lc == "post-flight";
      ContainsAt(lc, "post-flight", 0);
    } else {
      assert lc == "in-flight";
      ContainsAt(lc, "in-flight", 0);
    }
  }

  lemma CoarseGroundAnalogText(lc: string)
    requires lc == "ground/analog"
    ensures !Contains(lc, "space") && !Contains(lc, "pre-flight") && !Contains(lc, "post-flight")
    ensures !Contains(lc, "in-flight") && Contains(lc, "ground")
  {
    GroundAnalogNoFlight(lc);
    ContainsAt(lc, "ground", 0);
  }

  lemma GroundAnalogNoFlight(lc: string)
    requires lc == "ground/analog"
    ensures !Contains(lc, "space") && !Contains(lc, "pre-flight") && !Contains(lc, "post-flight")
    ensures !Contains(lc, "in-flight")
  {
    NotContaining(lc, "space", 's');
    NotContaining(lc, "pre-flight", 'f');
    NotContaining(lc, "post-flight", 'f');
    NotContaining(lc, "in-flight", 'f');
  }

  // ---------------------------------------------------------------------
  // _parent_tissue_name

  /** Text whose only whitespace is single spaces between non-space
      characters: no leading or trailing space and no run of two. */
  predicate SingleSpaced(s: string) {
    forall i :: 0 <= i < |s| && IsSpace(s[i]) ==>
      s[i] == ' ' && 0 < i < |s| - 1 && !IsSpace(s[i - 1]) && !IsSpace(s[i + 1])
  }

  /** Joining words with one space gives single-spaced text. */
  lemma {:induction false} JoinWordsSingleSpaced(ws: seq<string>)
    requires forall i :: 0 <= i < |ws| ==> IsWord(ws[i])
    ensures SingleSpaced(Join(ws, " "))
    decreases |ws|
  {
    if |ws| > 1 {
      JoinWordsSingleSpaced(ws[1..]);
      var w, rest := ws[0], Join(ws[1..], " ");
      assert IsWord(ws[1]);
      JoinWordsStart(ws[1..]);
      var s := w + " " + rest;
      assert Join(ws, " ") == s;
      forall i | 0 <= i < |s| && IsSpace(s[i])
        ensures s[i] == ' ' && 0 < i < |s| - 1 && !IsSpace(s[i - 1]) && !IsSpace(s[i + 1])
      {
        if i > |w| {
          assert s[i] == rest[i - |w| - 1];
          if i - |w| - 1 > 0 {
            assert s[i - 1] == rest[i - |w| - 2];
          }
          assert s[i + 1] == rest[i - |w|];
        }
      }
    }
  }

  /** Words joined with spaces start with a non-space character. */
  lemma JoinWordsStart(ws: seq<string>)
    requires |ws| > 0 && forall i :: 0 <= i < |ws| ==> IsWord(ws[i])
    ensures |Join(ws, " ")| > 0 && !IsSpace(Join(ws, " ")[0])
  {
    assert IsWord(ws[0]);
  }

  /** Joined words begin with the first word. */
  lemma JoinFirst(ws: seq<string>)
    requires forall i :: 0 <= i < |ws| ==> IsWord(ws[i])
    ensures |ws| > 0 ==> IsWord(ws[0]) && |Join(ws, " ")| > 0 && Join(ws, " ")[0] == ws[0][0]
  {
    if |ws| > 0 {
      assert IsWord(ws[0]);
    }
  }

  /** Words joined by single spaces split back into those words: `s.split()`
      undoes `" ".join(ws)`. */
  lemma {:induction false} WordsOfJoin(ws: seq<string>)
    requires forall i :: 0 <= i < |ws| ==> IsWord(ws[i])
    ensures Words(Join(ws, " ")) == ws
    decreases |ws|
  {
    if |ws| == 1 {
      WordsOfWord(ws[0]);
    } else if |ws| > 1 {
      var w, tail := ws[0], ws[1..];
      assert IsWord(w);
      assert forall i :: 0 <= i < |tail| ==> IsWord(tail[i]);
      var rest := Join(tail, " ");
      assert Join(ws, " ") == w + " " + rest;
      WordsOfJoin(tail);
      JoinWordsStart(tail);
      WordsCons(w, rest);
      assert ws == [w] + tail;
    }
  }

  /** A single word splits into itself. */
  lemma WordsOfWord(w: string)
    requires IsWord(w)
    ensures Words(w) == [w]
  {
    assert w + [] == w;
    TakeWordPrefix(w, []);
    assert TrimLeft(w) == w;
    assert w[|w|..] == [];
  }

  /** A word, a space and text starting with a non-space split into the
      word followed by the words of that text. */
  lemma WordsCons(w: string, rest: string)
    requires IsWord(w) && rest != [] && !IsSpace(rest[0])
    ensures Words(w + " " + rest) == [w] + Words(rest)
  {
    var s := w + (" " + rest);
    assert w + " " + rest == s;
    TakeWordPrefix(w, " " + rest);
    assert TrimLeft(s) == s;
    assert s[|w|..] == " " + rest;
    WordsSkipSpace(rest);
  }

  /** A leading space does not change the words. */
  lemma WordsSkipSpace(rest: string)
    requires rest != [] && !IsSpace(rest[0])
    ensures Words(" " + rest) == Words(rest)
  {
    assert (" " + rest)[1..] == rest;
    assert TrimLeft(" " + rest) == TrimLeft(rest) == rest;
  }

  /** Capitalising keeps a word a word. */
  lemma CapitalizeWord(w: string)
    requires IsWord(w)
    ensures IsWord(Capitalize(w))
  {
  }

  /** `w.capitalize() for w in s.split()`. */
  function CapitalizedWords(s: string): (r: seq<string>)
    ensures |r| == |Words(s)|
    ensures forall i :: 0 <= i < |r| ==> r[i] == Capitalize(Words(s)[i]) && IsWord(r[i])
  {
    CapitalizeAll(Words(s))
  }

  function CapitalizeAll(ws: seq<string>): (r: seq<string>)
    requires forall i :: 0 <= i < |ws| ==> IsWord(ws[i])
    ensures |r| == |ws|
    ensures forall i :: 0 <= i < |r| ==> r[i] == Capitalize(ws[i]) && IsWord(r[i])
  {
    CapitalizeWords(ws);
    seq(|ws|, i requires 0 <= i < |ws| => Capitalize(ws[i]))
  }

  /** Capitalising keeps each word a word. */
  lemma CapitalizeWords(ws: seq<string>)
    requires forall i :: 0 <= i < |ws| ==> IsWord(ws[i])
    ensures forall i :: 0 <= i < |ws| ==> IsWord(Capitalize(ws[i]))
  {
    forall i | 0 <= i < |ws| ensures IsWord(Capitalize(ws[i])) {
      CapitalizeWord(ws[i]);
    }
  }

  /** The text `_parent_tissue_name` splits into words: stripped and lower
      cased, the two "both sides" phrases removed, dashes and underscores
      turned into spaces, one pass collapsing double spaces, then a single
      trailing `s` (not `ss`) dropped and the result stripped. */
  function TissueStem(t: string): string {
    Strip(DropPlural(Rewritten(t)))
  }

  /** The text before the plural is dropped: stripped, lower cased, phrases
      removed and separators rewritten. */
  function Rewritten(t: string): string {
    Unified(PhrasesRemoved(Lower(Strip(t))))
  }

  /** The two "both sides" phrases removed. */
  function PhrasesRemoved(s0: string): string {
    ReplaceAll(ReplaceAll(s0, "glands- both sides", "gland"), "both sides", "")
  }

  /** Dashes and underscores turned into spaces, then one pass collapsing
      double spaces. */
  function Unified(s2: string): string {
    ReplaceAll(Separated(s2), "  ", " ")
  }

  function Separated(s2: string): string {
    ReplaceChar(ReplaceChar(s2, '-', " "), '_', " ")
  }

  /** One trailing `s`, but not `ss`, dropped. */
  function DropPlural(s: string): string {
    if EndsWith(s, "s") && !EndsWith(s, "ss") then s[..|s| - 1] else s
  }

  /** `_parent_tissue_name`: no value for no or empty text; otherwise the
      stem's words, capitalised, joined by single spaces. */
  function ParentTissueName(t: Option<string>): (r: Option<string>)
    ensures r.None? <==> t.None? || t.value == ""
    ensures r.Some? ==> SingleSpaced(r.value)
    ensures r.Some? ==> |r.value| > 0 ==> !IsLower(r.value[0])
    ensures r.Some? ==> var stem := Words(TissueStem(t.value));
      |Words(r.value)| == |stem| &&
      forall i :: 0 <= i < |stem| ==> Words(r.value)[i] == Capitalize(stem[i])
  {
    if t.None? || t.value == "" then None
    else
      var ws := CapitalizedWords(TissueStem(t.value));
      JoinWordsSingleSpaced(ws);
      JoinFirst(ws);
      WordsOfJoin(ws);
      Some(Join(ws, " "))
  }

  /** The parent name ignores case: a text and its lower case give the
      same name. */
  lemma ParentTissueIgnoresCase(t: string)
    ensures ParentTissueName(Some(t)) == ParentTissueName(Some(Lower(t)))
  {
    StripLower(t);
    LowerIdempotent(Strip(t));
    assert TissueStem(Lower(t)) == TissueStem(t);
  }

  /** Lower-case letters only. */
  predicate LowerLetters(w: string) {
    forall i :: 0 <= i < |w| ==> IsLower(w[i])
  }

  /** A lower-case word passes the phrase removals and the separator
      rewriting unchanged. */
  lemma PlainWordStem(w: string)
    requires w != [] && LowerLetters(w)
    ensures Rewritten(w) == w
  {
    StripNoSpace(w);
    LowerOfLower(w);
    NoSpacePhrases(w);
    ReplaceCharAbsent(w, '-', " ");
    ReplaceCharAbsent(w, '_', " ");
    NotContaining(w, "  ", ' ');
    ReplaceAllAbsent(w, "  ", " ");
  }

  /** Text without a space holds neither phrase. */
  lemma NoSpacePhrases(x: string)
    requires ' ' !in x
    ensures PhrasesRemoved(x) == x
  {
    NotContaining(x, "glands- both sides", ' ');
    ReplaceAllAbsent(x, "glands- both sides", "gland");
    NotContaining(x, "both sides", ' ');
    ReplaceAllAbsent(x, "both sides", "");
  }

  /** A simple plural reads as its singular: a lower-case word not ending
      in `s` and the same word with an `s` appended ("livers" and "liver")
      give the same name. */
  lemma ParentTissuePlural(w: string)
    requires w != [] && LowerLetters(w) && w[|w| - 1] != 's'
    ensures ParentTissueName(Some(w + "s")) == ParentTissueName(Some(w))
  {
    var p := w + "s";
    PlainWordStem(w);
    assert LowerLetters(p);
    PlainWordStem(p);
    assert EndsWith(p, "s") && !EndsWith(p, "ss");
    assert p[..|p| - 1] == w;
    assert DropPlural(p) == w;
    assert !EndsWith(w, "s");
  }

  /** A plural last word reads as its singular after a first word too
      ("adrenal glands" and "adrenal gland"), unless the text holds the
      phrase "both sides". */
  lemma ParentTissueLastPlural(a: string, w: string)
    requires a != [] && w != [] && LowerLetters(a) && LowerLetters(w) && w[|w| - 1] != 's'
    requires !Contains(a + " " + w + "s", "both sides")
    ensures ParentTissueName(Some(a + " " + w + "s")) == ParentTissueName(Some(a + " " + w))
  {
    PluralStem(a, w);
  }

  /** Dropping the plural of a spaced last word gives the stem of the
      singular text. */
  lemma PluralStem(a: string, w: string)
    requires a != [] && w != [] && LowerLetters(a) && LowerLetters(w) && w[|w| - 1] != 's'
    requires !Contains(a + " " + w + "s", "both sides")
    ensures TissueStem(a + " " + w + "s") == TissueStem(a + " " + w)
  {
    var sg := a + " " + w;
    assert a + " " + (w + "s") == sg + "s";
    assert LowerLetters(w + "s");
    SpacedStem(a, w + "s");
    ContainsExtend(sg, "s", "both sides");
    SpacedStem(a, w);
    DropAddedPlural(sg);
  }

  /** An `s` appended to text not ending in `s` is the plural dropped. */
  lemma DropAddedPlural(x: string)
    requires x != [] && x[|x| - 1] != 's'
    ensures DropPlural(x + "s") == x && DropPlural(x) == x
  {
    var p := x + "s";
    assert EndsWith(p, "s") && !EndsWith(p, "ss");
    assert p[..|p| - 1] == x;
    assert !EndsWith(x, "s");
  }

  /** A dash or an underscore between two lower-case words reads as a space,
      unless the spaced text holds the phrase "both sides", which is removed
      before the separators are rewritten. */
  lemma ParentTissueSeparator(a: string, b: string, sep: char)
    requires a != [] && b != [] && LowerLetters(a) && LowerLetters(b)
    requires sep == '-' || sep == '_'
    requires !Contains(a + " " + b, "both sides")
    ensures ParentTissueName(Some(a + [sep] + b)) == ParentTissueName(Some(a + " " + b))
  {
    SeparatedStem(a, b, sep);
    SpacedStem(a, b);
  }

  /** The rewritten text of two lower-case words joined by a dash or an
      underscore is the two words joined by one space. */
  lemma SeparatedStem(a: string, b: string, sep: char)
    requires a != [] && b != [] && LowerLetters(a) && LowerLetters(b)
    requires sep == '-' || sep == '_'
    ensures Rewritten(a + [sep] + b) == a + " " + b
  {
    var d := a + [sep] + b;
    assert forall i :: 0 <= i < |d| ==> !IsSpace(d[i]) && !IsUpper(d[i]);
    StripNoSpace(d);
    LowerOfLower(d);
    NoSpacePhrases(d);
    SeparatorToSpace(a, b, sep);
    NoDoubleSpace(a, b);
  }

  /** The separator between two lower-case words becomes a space. */
  lemma SeparatorToSpace(a: string, b: string, sep: char)
    requires LowerLetters(a) && LowerLetters(b)
    requires sep == '-' || sep == '_'
    ensures Separated(a + [sep] + b) == a + " " + b
  {
    var m := if sep == '-' then " " else [sep];
    ReplaceCharAppend(a + [sep], b, '-', " ");
    ReplaceCharAppend(a, [sep], '-', " ");
    ReplaceCharAbsent(a, '-', " ");
    ReplaceCharAbsent(b, '-', " ");
    ReplaceCharSingle(sep, '-', " ");
    assert ReplaceChar(a + [sep] + b, '-', " ") == a + m + b;
    ReplaceCharAppend(a + m, b, '_', " ");
    ReplaceCharAppend(a, m, '_', " ");
    ReplaceCharAbsent(a, '_', " ");
    ReplaceCharAbsent(b, '_', " ");
    ReplaceCharSingle(m[0], '_', " ");
    assert m == [m[0]];
  }

  /** Two lower-case words joined by one space pass the rewriting unchanged,
      when they do not form the phrase "both sides". */
  lemma SpacedStem(a: string, b: string)
    requires a != [] && b != [] && LowerLetters(a) && LowerLetters(b)
    requires !Contains(a + " " + b, "both sides")
    ensures Rewritten(a + " " + b) == a + " " + b
  {
    var sp := a + " " + b;
    SpacedChars(a, b);
    assert Lower(Strip(sp)) == sp;
    NoDashPhrases(sp);
    ReplaceCharAbsent(sp, '-', " ");
    ReplaceCharAbsent(sp, '_', " ");
    NoDoubleSpace(a, b);
  }

  /** Two lower-case words joined by one space: already stripped and lower
      case, with no dash and no underscore. */
  lemma SpacedChars(a: string, b: string)
    requires a != [] && b != [] && LowerLetters(a) && LowerLetters(b)
    ensures var sp := a + " " + b; Lower(Strip(sp)) == sp && '-' !in sp && '_' !in sp
  {
    var sp := a + " " + b;
    assert !IsSpace(sp[0]) && !IsSpace(sp[|sp| - 1]);
    StripOfStripped(sp);
    assert forall i :: 0 <= i < |sp| ==> !IsUpper(sp[i]) && sp[i] != '-' && sp[i] != '_';
    LowerOfLower(sp);
  }

  /** Text without a dash and without "both sides" holds neither phrase. */
  lemma NoDashPhrases(x: string)
    requires '-' !in x && !Contains(x, "both sides")
    ensures PhrasesRemoved(x) == x
  {
    NotContaining(x, "glands- both sides", '-');
    ReplaceAllAbsent(x, "glands- both sides", "gland");
    ReplaceAllAbsent(x, "both sides", "");
  }

  /** Two words without spaces joined by one space hold no double space. */
  lemma NoDoubleSpace(a: string, b: string)
    requires a != [] && b != [] && LowerLetters(a) && LowerLetters(b)
    ensures ReplaceAll(a + " " + b, "  ", " ") == a + " " + b
  {
    var sp := a + " " + b;
    forall k: nat ensures !OccursAt(sp, "  ", k) {
      if k + 2 <= |sp| {
        if k < |a| {
          assert sp[k..k + 2][0] == a[k];
        } else {
          assert sp[k..k + 2][1] == sp[k + 1] == b[k - |a|];
        }
      }
    }
    NotContainingAnywhere(sp, "  ");
    ReplaceAllAbsent(sp, "  ", " ");
  }

  /** Python's `s.replace(c, rep)` with a one-character pattern replaces each
      occurrence of the character, like a global regular expression. */
  lemma {:induction false} ReplaceAllOneChar(s: string, c: char, rep: string)
    ensures ReplaceAll(s, [c], rep) == ReplaceChar(s, c, rep)
    decreases |s|
  {
    if s != [] {
      ReplaceAllOneChar(s[1..], c, rep);
      assert s[..1] == [s[0]];
    }
  }

  // ---------------------------------------------------------------------
  // _pick_tissue

  const TissueKeys: seq<string> := [
    "study.characteristics.organism part",
    "study.characteristics.tissue",
    "study.characteristics.organ",
    "study.characteristics.cell type",
    "study.characteristics.material type"
  ]

  /** The keys of TISSUE_KEYS with each space written `%20`. */
  function EscapedKeys(keys: seq<string>): (r: seq<string>)
    ensures |r| == |keys|
    ensures forall i :: 0 <= i < |r| ==> r[i] == ReplaceChar(keys[i], ' ', "%20") && ' ' !in r[i]
  {
    Map(keys, (k: string) => ReplaceChar(k, ' ', "%20"))
  }

  /** The `i`-th key holds `r` after normalising and no earlier key holds a value. */
  ghost predicate FoundAt(row: Row, keys: seq<string>, i: nat, r: Option<string>)
    requires i < |keys|
  {
    NormStr(Get(row, keys[i])) == r && forall j :: 0 <= j < i ==> NormStr(Get(row, keys[j])).None?
  }

  /** The normalised value of the first key, in order, with one. */
  function FirstPresent(row: Row, keys: seq<string>): (r: Option<string>)
    ensures r.None? <==> forall i :: 0 <= i < |keys| ==> NormStr(Get(row, keys[i])).None?
    ensures r.Some? ==> exists i :: 0 <= i < |keys| && FoundAt(row, keys, i, r)
    decreases |keys|
  {
    if keys == [] then None
    else
      var v := NormStr(Get(row, keys[0]));
      if v.Some? then assert FoundAt(row, keys, 0, v); v
      else
        var r := FirstPresent(row, keys[1..]);
        FirstPresentShift(row, keys, r);
        r
  }

  /** A key found after the first one is found at its shifted position. */
  lemma FirstPresentShift(row: Row, keys: seq<string>, r: Option<string>)
    requires keys != [] && NormStr(Get(row, keys[0])).None?
    requires r.Some? ==> exists i :: 0 <= i < |keys[1..]| && FoundAt(row, keys[1..], i, r)
    ensures r.Some? ==> exists i :: 0 <= i < |keys| && FoundAt(row, keys, i, r)
  {
    if r.Some? {
      var t := keys[1..];
      var i :| 0 <= i < |t| && FoundAt(row, t, i, r);
      assert keys[i + 1] == t[i];
      forall j | 0 <= j < i + 1 ensures NormStr(Get(row, keys[j])).None? {
        if j > 0 {
          assert keys[j] == t[j - 1];
        }
      }
      assert FoundAt(row, keys, i + 1, r);
    }
  }

  /** `_pick_tissue`: the first tissue key with a value, then the same keys
      spelled with `%20`, else nothing. */
  function PickTissue(row: Row): (r: Option<string>)
    ensures r.Some? ==> r.value != [] && NormStr(r) == r
  {
    var r := FirstPresent(row, TissueKeys + EscapedKeys(TissueKeys));
    FirstPresentNormal(row, TissueKeys + EscapedKeys(TissueKeys));
    r
  }

  /** What FirstPresent finds is already normalised. */
  lemma FirstPresentNormal(row: Row, keys: seq<string>)
    ensures FirstPresent(row, keys).Some? ==> NormStr(FirstPresent(row, keys)) == FirstPresent(row, keys)
  {
    var r := FirstPresent(row, keys);
    if r.Some? {
      var i :| 0 <= i < |keys| && FoundAt(row, keys, i, r);
      NormStrIdempotent(Get(row, keys[i]));
    }
  }

  /** A value under a plain key wins over every `%20` spelling. */
  lemma FirstPresentPrefix(row: Row, a: seq<string>, b: seq<string>)
    ensures FirstPresent(row, a).Some? ==> FirstPresent(row, a + b) == FirstPresent(row, a)
    ensures FirstPresent(row, a).None? ==> FirstPresent(row, a + b) == FirstPresent(row, b)
    decreases |a|
  {
    if a != [] {
      FirstPresentPrefix(row, a[1..], b);
      assert (a + b)[1..] == a[1..] + b;
    } else {
      assert a + b == b;
    }
  }

  lemma PickTissueOrder(row: Row)
    ensures FirstPresent(row, TissueKeys).Some? ==> PickTissue(row) == FirstPresent(row, TissueKeys)
    ensures FirstPresent(row, TissueKeys).None? ==> PickTissue(row) == FirstPresent(row, EscapedKeys(TissueKeys))
  {
    FirstPresentPrefix(row, TissueKeys, EscapedKeys(TissueKeys));
  }

  // ---------------------------------------------------------------------
  // /gaps/options

  /** The values a row reader yields over the rows, in row order. */
  function Values<B>(rows: seq<Row>, f: Row -> Option<B>): (r: seq<B>)
    ensures forall x | x in r :: exists i :: 0 <= i < |rows| && f(rows[i]) == Some(x)
    ensures forall i | 0 <= i < |rows| && f(rows[i]).Some? :: f(rows[i]).value in r
    decreases |rows|
  {
    if rows == [] then []
    else
      var p := rows[..|rows| - 1];
      var v := f(rows[|rows| - 1]);
      var r := Values(p, f) + (if v.Some? then [v.value] else []);
      assert forall i :: 0 <= i < |p| ==> p[i] == rows[i];
      r
  }

  lemma {:induction false} ValuesLength<B>(rows: seq<Row>, f: Row -> Option<B>)
    ensures |Values(rows, f)| <= |rows|
    decreases |rows|
  {
    if rows != [] {
      ValuesLength(rows[..|rows| - 1], f);
    }
  }

  /** One more row adds that row's value, when it has one. */
  lemma ValuesStep<B>(rows: seq<Row>, i: nat, f: Row -> Option<B>)
    requires i < |rows|
    ensures Values(rows[..i + 1], f) == Values(rows[..i], f) + (if f(rows[i]).Some? then [f(rows[i]).value] else [])
  {
    assert rows[..i + 1][..i] == rows[..i];
  }

  function OrganismOf(row: Row): Option<string> { NormStr(Get(row, OrganismField)) }
  function ConditionOfRow(row: Row): Option<string> { NormCondition(Get(row, ConditionField)) }
  function TechnologyOf(row: Row): Option<string> { NormStr(Get(row, TechnologyField)) }

  predicate Fixed(c: string) { c == Spaceflight || c == GroundAnalog }

  /** `[c for c in ["Spaceflight", "Ground/Analog"] if c in conds]`. */
  function FixedSeen(conds: seq<string>): (r: seq<string>)
    ensures forall x :: x in r <==> Fixed(x) && x in conds
    ensures NoDup(r)
    ensures forall i :: 0 <= i < |r| ==> Fixed(r[i])
    ensures |r| == (if Spaceflight in conds then 1 else 0) + (if GroundAnalog in conds then 1 else 0)
    ensures Spaceflight in conds ==> r[0] == Spaceflight
    ensures GroundAnalog in conds ==> r[if Spaceflight in conds then 1 else 0] == GroundAnalog
  {
    (if Spaceflight in conds then [Spaceflight] else []) + (if GroundAnalog in conds then [GroundAnalog] else [])
  }

  /** The other conditions, without repeats, sorted. */
  function OthersSorted(conds: seq<string>): (r: seq<string>)
    ensures forall x :: x in r <==> !Fixed(x) && x in conds
    ensures NoDup(r)
    ensures forall i :: 0 <= i < |r| ==> !Fixed(r[i])
    ensures forall i, j :: 0 <= i < j < |r| ==> StrLt(r[i], r[j])
  {
    var others := Filter(conds, (c: string) => !Fixed(c));
    assert forall x :: x in others <==> !Fixed(x) && x in conds;
    SortedSet(others)
  }

  /** `r` lists the seen conditions (when there are any) once each,
      Spaceflight first and Ground/Analog next when seen, and after the
      first other label only other labels, in increasing order. */
  ghost predicate FriendlyOrder(conds: seq<string>, r: seq<string>) {
    && (conds != [] ==> forall x :: x in r <==> x in conds)
    && NoDup(r)
    && (conds != [] && Spaceflight in conds ==> |r| > 0 && r[0] == Spaceflight)
    && (conds != [] && GroundAnalog in conds ==> |r| > (if Spaceflight in conds then 1 else 0) && r[if Spaceflight in conds then 1 else 0] == GroundAnalog)
    && forall i, j :: 0 <= i < j < |r| && !Fixed(r[i]) ==> !Fixed(r[j]) && StrLt(r[i], r[j])
  }

  /** The friendly condition order: Spaceflight, then Ground/Analog, when
      seen, then the other conditions sorted; both defaults when none were
      seen. */
  function ConditionsSorted(conds: seq<string>): (r: seq<string>)
    ensures conds == [] ==> r == [Spaceflight, GroundAnalog]
    ensures FriendlyOrder(conds, r)
  {
    var r := FixedSeen(conds) + OthersSorted(conds);
    if r == [] then
      DefaultsListed(conds);
      [Spaceflight, GroundAnalog]
    else
      ConditionsListed(conds);
      r
  }

  /** No condition seen: the defaults, both fixed. */
  lemma DefaultsListed(conds: seq<string>)
    ensures conds != [] ==> FixedSeen(conds) + OthersSorted(conds) != []
    ensures conds == [] ==> FriendlyOrder(conds, [Spaceflight, GroundAnalog])
  {
    if conds != [] {
      assert conds[0] in FixedSeen(conds) + OthersSorted(conds);
    }
  }

  /** The seen conditions, fixed ones first, the rest sorted. */
  lemma ConditionsListed(conds: seq<string>)
    ensures FriendlyOrder(conds, FixedSeen(conds) + OthersSorted(conds))
  {
    ConcatOrdered(FixedSeen(conds), OthersSorted(conds));
  }

  /** Fixed labels followed by sorted other labels keep both orders. */
  lemma ConcatOrdered(first: seq<string>, rest: seq<string>)
    requires NoDup(first) && NoDup(rest)
    requires forall i :: 0 <= i < |first| ==> Fixed(first[i])
    requires forall i :: 0 <= i < |rest| ==> !Fixed(rest[i])
    requires forall i, j :: 0 <= i < j < |rest| ==> StrLt(rest[i], rest[j])
    ensures NoDup(first + rest)
    ensures forall i, j :: 0 <= i < j < |first + rest| && !Fixed((first + rest)[i]) ==>
      !Fixed((first + rest)[j]) && StrLt((first + rest)[i], (first + rest)[j])
  {
  }

  /** What `/gaps/options` lists. */
  datatype Options = Options(organisms: seq<string>, assays: seq<string>, conditions: seq<string>, tissues: seq<string>)

  /** The four lists `/gaps/options` has collected from `rows`. */
  ghost predicate Collected(rows: seq<Row>, organisms: seq<string>, conds: seq<string>, assays: seq<string>, tissues: seq<string>) {
    organisms == Values(rows, OrganismOf) && conds == Values(rows, ConditionOfRow) &&
    assays == Values(rows, TechnologyOf) && tissues == Values(rows, PickTissue)
  }

  lemma CollectedStep(rows: seq<Row>, i: nat, organisms: seq<string>, conds: seq<string>, assays: seq<string>, tissues: seq<string>)
    requires i < |rows| && Collected(rows[..i], organisms, conds, assays, tissues)
    ensures var row := rows[i];
      Collected(rows[..i + 1],
        organisms + (if OrganismOf(row).Some? then [OrganismOf(row).value] else []),
        conds + (if ConditionOfRow(row).Some? then [ConditionOfRow(row).value] else []),
        assays + (if TechnologyOf(row).Some? then [TechnologyOf(row).value] else []),
        tissues + (if PickTissue(row).Some? then [PickTissue(row).value] else []))
  {
    ValuesStep(rows, i, OrganismOf);
    ValuesStep(rows, i, ConditionOfRow);
    ValuesStep(rows, i, TechnologyOf);
    ValuesStep(rows, i, PickTissue);
  }

  /** The loop of `/gaps/options`: each row's organism, condition, technology
      and tissue collected, then listed sorted. */
  method GapsOptions(rows: seq<Row>) returns (o: Options)
    ensures o.organisms == SortedSet(Values(rows, OrganismOf))
    ensures o.assays == SortedSet(Values(rows, TechnologyOf))
    ensures o.conditions == ConditionsSorted(Values(rows, ConditionOfRow))
    ensures o.tissues == SortedSet(Values(rows, PickTissue))
  {
    var organisms, conds, assays, tissues := CollectOptions(rows);
    o := Options(SortedSet(organisms), SortedSet(assays), ConditionsSorted(conds), SortedSet(tissues));
  }

  /** The row loop of `/gaps/options`. */
  method CollectOptions(rows: seq<Row>) returns (organisms: seq<string>, conds: seq<string>, assays: seq<string>, tissues: seq<string>)
    ensures Collected(rows, organisms, conds, assays, tissues)
  {
    organisms, conds, assays, tissues := [], [], [], [];
    for i := 0 to |rows|
      invariant Collected(rows[..i], organisms, conds, assays, tissues)
    {
      var row := rows[i];
      CollectedStep(rows, i, organisms, conds, assays, tissues);
      var org := OrganismOf(row);
      if org.Some? {
        organisms := organisms + [org.value];
      }
      var cond := ConditionOfRow(row);
      if cond.Some? {
        conds := conds + [cond.value];
      }
      var tech := TechnologyOf(row);
      if tech.Some? {
        assays := assays + [tech.value];
      }
      var tis := PickTissue(row);
      if tis.Some? {
        tissues := tissues + [tis.value];
      }
    }
    assert rows[..|rows|] == rows;
  }
}
