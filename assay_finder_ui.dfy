/** The assay-finder component: the assay total, the badges of an assay
    card, and its submit and sample handlers. */
module AssayFinderView {
  import opened Wrappers
  import opened Strings
  import opened Collections
  import opened UiCommon

  datatype AssayEntry = AssayEntry(
    dataset: string, assayName: string, organism: string, assayTechnology: string,
    conditions: seq<string>, link: string, datasetLink: string,
    hasFlight: bool, hasGround: bool, hasBothFlightGround: bool)

  /** A technology bucket; `count` is the catalogue's figure, not the
      length of `assays`. */
  datatype AssayCategory = AssayCategory(technology: string, count: int, assays: seq<AssayEntry>)

  // ---------------------------------------------------------------------
  // The total

  /** Every assay of the categories, in order. */
  function AllAssays(cats: seq<AssayCategory>): seq<AssayEntry>
    decreases |cats|
  {
    if cats == [] then [] else cats[0].assays + AllAssays(cats[1..])
  }

  /** The `reduce` that adds up the category sizes. */
  function SumSizes(cats: seq<AssayCategory>): (n: nat)
    decreases |cats|
  {
    if cats == [] then 0 else |cats[0].assays| + SumSizes(cats[1..])
  }

  /** `totalAssays`: no results count as none. */
  function TotalAssays(results: Option<seq<AssayCategory>>): (n: nat)
    ensures results.None? ==> n == 0
  {
    if results.None? then 0 else SumSizes(results.value)
  }

  /** The total is the number of assays shown across all categories. */
  lemma {:induction false} SumSizesCounts(cats: seq<AssayCategory>)
    ensures SumSizes(cats) == |AllAssays(cats)|
    decreases |cats|
  {
    if cats != [] {
      SumSizesCounts(cats[1..]);
    }
  }

  /** Adding up two lists of categories adds their totals. */
  lemma {:induction false} SumSizesAppend(a: seq<AssayCategory>, b: seq<AssayCategory>)
    ensures SumSizes(a + b) == SumSizes(a) + SumSizes(b)
    decreases |a|
  {
    if a != [] {
      assert (a + b)[1..] == a[1..] + b;
      SumSizesAppend(a[1..], b);
    } else {
      assert a + b == b;
    }
  }

  /** An assay in any category counts towards the total. */
  lemma {:induction false} SumSizesBound(cats: seq<AssayCategory>, i: int)
    requires 0 <= i < |cats|
    ensures |cats[i].assays| <= SumSizes(cats)
    decreases |cats|
  {
    if i > 0 {
      SumSizesBound(cats[1..], i - 1);
    }
  }

  // ---------------------------------------------------------------------
  // Badges

  datatype Tone = SpaceTone | PlainTone

  /** The colour of a condition badge: purple for a condition whose lower-
      cased text mentions "space". */
  function ConditionTone(condition: string): (t: Tone) {
    if Contains(Lower(condition), "space") then SpaceTone else PlainTone
  }

  datatype Badge = Badge(caption: string, tone: Tone)  // caption is the `label` field

  /** One badge per condition, in order, labelled with it. */
  function ConditionBadges(conditions: seq<string>): (r: seq<Badge>)
    ensures |r| == |conditions|
    ensures forall i :: 0 <= i < |r| ==> r[i].caption == conditions[i] && r[i].tone == ConditionTone(conditions[i])
  {
    Map(conditions, (c: string) => Badge(c, ConditionTone(c)))
  }

  /** Case does not change the tone. */
  lemma ConditionToneIgnoresCase(condition: string)
    ensures ConditionTone(Lower(condition)) == ConditionTone(condition)
  {
    LowerIdempotent(condition);
  }

  lemma LowerAppend(a: string, b: string)
    ensures Lower(a + b) == Lower(a) + Lower(b)
  {
  }

  /** Any condition with the word "space" in it, in any case and at any
      place, gets the space tone. */
  lemma ConditionToneSpace(before: string, word: string, after: string)
    requires Lower(word) == "space"
    ensures ConditionTone(before + word + after) == SpaceTone
  {
    LowerAppend(before + word, after);
    LowerAppend(before, word);
    ContainsInfix(Lower(before), "space", Lower(after));
  }

  /** `[...].filter(Boolean)` on a list of texts or nulls: the present,
      non-empty texts in order. */
  function Present(xs: seq<Option<string>>): (r: seq<string>)
    ensures |r| <= |xs|
    ensures forall t :: t in r <==> t != "" && Some(t) in xs
    decreases |xs|
  {
    if xs == [] then []
    else
      var rest := Present(xs[1..]);
      assert forall t :: Some(t) in xs <==> Some(t) == xs[0] || Some(t) in xs[1..];
      if xs[0].Some? && xs[0].value != "" then [xs[0].value] + rest else rest
  }

  /** The availability badges of an assay: "Flight", "Ground" and
      "Flight + Ground" for the flags that are set, in that order. */
  function AvailabilityBadges(e: AssayEntry): seq<string> {
    Present([
      if e.hasFlight then Some("Flight") else None,
      if e.hasGround then Some("Ground") else None,
      if e.hasBothFlightGround then Some("Flight + Ground") else None
    ])
  }

  function Flag(b: bool): nat { if b then 1 else 0 }

  /** A badge is shown exactly for each flag that is set, once, in the order
      flight, ground, both. */
  lemma AvailabilityBadgesSpec(e: AssayEntry)
    ensures var r := AvailabilityBadges(e);
      && ("Flight" in r <==> e.hasFlight)
      && ("Ground" in r <==> e.hasGround)
      && ("Flight + Ground" in r <==> e.hasBothFlightGround)
      && |r| == Flag(e.hasFlight) + Flag(e.hasGround) + Flag(e.hasBothFlightGround)
      && (e.hasFlight ==> r[0] == "Flight")
      && (e.hasBothFlightGround ==> r[|r| - 1] == "Flight + Ground")
  {
    var r := AvailabilityBadges(e);
    BadgesInOrder(e);
    assert "Flight" != "Ground" && "Flight" != "Flight + Ground" && "Ground" != "Flight + Ground" by {
      assert "Flight"[0] != "Ground"[0];
      assert |"Flight"| != |"Flight + Ground"|;
      assert |"Ground"| != |"Flight + Ground"|;
    }
  }

  /** The badge for a flag: the text when the flag is set, else nothing. */
  function FlagBadge(on: bool, t: string): seq<string> {
    if on then [t] else []
  }

  lemma BadgesInOrder(e: AssayEntry)
    ensures AvailabilityBadges(e) ==
      FlagBadge(e.hasFlight, "Flight") + FlagBadge(e.hasGround, "Ground") + FlagBadge(e.hasBothFlightGround, "Flight + Ground")
  {
    var a := if e.hasFlight then Some("Flight") else None;
    var b := if e.hasGround then Some("Ground") else None;
    var c := if e.hasBothFlightGround then Some("Flight + Ground") else None;
    var xs := [a, b, c];
    assert xs[1..] == [b, c] && xs[1..][1..] == [c] && [c][1..] == [];
    assert Present([c]) == FlagBadge(e.hasBothFlightGround, "Flight + Ground");
    assert Present([b, c]) == FlagBadge(e.hasGround, "Ground") + Present([c]);
    assert Present(xs) == FlagBadge(e.hasFlight, "Flight") + Present([b, c]);
  }

  // ---------------------------------------------------------------------
  // The page

  /** The outcome of `assays.search`: no response, the response's `data`
      (`None` when missing, null or not an array), or a failure. */
  datatype AssayReply = NoResponse | AssayData(data: Option<seq<AssayCategory>>) | AssayFailed(failure: Failure)

  const BlankQuery := "Please enter a query to search for assays."
  const NoResponseText := "No response from the assay service."
  const NothingFound := "No assays were found for this search."
  const SearchFallback := "Unable to fetch assay information."
  const SampleQuery := "Show me all RNA sequencing assays with flight and ground controls"

  class AssayFinderPage {
    var prompt: string
    var loading: bool
    var error: Option<string>
    var results: Option<seq<AssayCategory>>
    var isSample: bool

    constructor()
      ensures prompt == "" && !loading && error == None && results == None && !isSample
    {
      prompt := "";
      loading := false;
      error := None;
      results := None;
      isSample := false;
    }

    /** `handleSubmit`: a blank prompt sets the error and clears the results
        without a search (`query` is `None`). Otherwise the trimmed prompt is
        searched for; a non-empty list of categories is shown, and anything
        else sets an error and clears the results. */
    method Submit(reply: AssayReply) returns (query: Option<string>)
      modifies this
      ensures query.None? <==> Strip(old(prompt)) == ""
      ensures query.Some? ==> query.value == Strip(old(prompt)) && !loading
      ensures prompt == old(prompt) && !isSample
      ensures query.None? ==> error == Some(BlankQuery) && results == None && loading == old(loading)
      ensures query.Some? && reply.AssayData? && reply.data.Some? && reply.data.value != [] ==>
        results == reply.data && error == None
      ensures query.Some? && reply.NoResponse? ==> results == None && error == Some(NoResponseText)
      ensures query.Some? && reply.AssayData? && (reply.data.None? || reply.data.value == []) ==>
        results == None && error == Some(NothingFound)
      ensures query.Some? && reply.AssayFailed? ==>
        results == None && error == Some(MessageOf(reply.failure, SearchFallback))
      ensures results.Some? ==> results.value != []
    {
      if Strip(prompt) == "" {
        error := Some(BlankQuery);
        results := None;
        isSample := false;
        return None;
      }
      error := None;
      loading := true;
      isSample := false;
      // `reply` is what `assays.search` gave for the trimmed prompt
      match reply {
        case NoResponse =>
          error := Some(NoResponseText);
          results := None;
        case AssayData(data) =>
          if data.None? || data.value == [] {
            error := Some(NothingFound);
            results := None;
          } else {
            results := data;
          }
        case AssayFailed(f) =>
          error := Some(MessageOf(f, SearchFallback));
          results := None;
      }
      loading := false;
      return Some(Strip(prompt));
    }

    /** `handleUseSample`: fills in the sample prompt, shows the sample
        categories and marks the results as the sample. */
    method UseSample(example: seq<AssayCategory>)
      modifies this
      ensures prompt == SampleQuery && results == Some(example) && error == None && isSample
      ensures loading == old(loading)
    {
      prompt := SampleQuery;
      results := Some(example);
      error := None;
      isSample := true;
    }

    /** The total shown above the results. */
    function Total(): (n: nat)
      reads this
      ensures results.Some? ==> n == |AllAssays(results.value)|
      ensures results.None? ==> n == 0
    {
      SumSizesCounts(if results.Some? then results.value else []);
      TotalAssays(results)
    }
  }
}
