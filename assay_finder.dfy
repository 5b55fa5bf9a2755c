/** The assay finder: OSDR assay rows simplified into cards, one card per
    (dataset, assay name), grouped by technology for the UI; and the OSDR
    query the filters become. */
module AssayFinder {
  import opened Wrappers
  import opened Strings
  import opened Collections
  import opened Ordering
  import opened GapFinder

  // ---------------------------------------------------------------------
  // _normalize_tech_label

  const OtherTech := "Other / Unspecified"
  const RnaSeqAlias := "RNA Sequencing (RNA-Seq)"
  const RnaSeq := "RNA Sequencing"

  /** Python truthiness of an optional string: present and not empty. */
  predicate Truthy(o: Option<string>) {
    o.Some? && o.value != ""
  }

  /** The canonical technology label: "Other / Unspecified" for a missing or
      empty label, the RNA-Seq alias folded to "RNA Sequencing", any other
      label stripped and otherwise kept. */
  function TechLabel(t: Option<string>): (r: string)
    ensures !Truthy(t) ==> r == OtherTech
    ensures Truthy(t) && Strip(t.value) == RnaSeqAlias ==> r == RnaSeq
    ensures Truthy(t) && Strip(t.value) != RnaSeqAlias ==> r == Strip(t.value)
  {
    if !Truthy(t) then OtherTech
    else
      var s := Strip(t.value);
      if s == RnaSeqAlias then RnaSeq else s
  }

  /** A label the function produced, when not empty, is its own canonical
      form; a label of only whitespace becomes the empty label. */
  lemma TechLabelCanonical(t: Option<string>)
    ensures TechLabel(t) != "" ==> TechLabel(Some(TechLabel(t))) == TechLabel(t)
    ensures Truthy(t) && (forall i | 0 <= i < |t.value| :: IsSpace(t.value[i])) ==> TechLabel(t) == ""
  {
    var r := TechLabel(t);
    if r != "" {
      StripOfStripped(r);
    }
    if Truthy(t) && (forall i | 0 <= i < |t.value| :: IsSpace(t.value[i])) {
      StripAllSpace(t.value);
    }
  }

  // ---------------------------------------------------------------------
  // Simplified rows and links

  const MetaBase := "https://visualization.osdr.nasa.gov/biodata/api/v2/query/metadata/"
  const DatasetBase := "https://visualization.osdr.nasa.gov/biodata/api/v2/dataset"
  const AssayLinkTail := "&study.characteristics&study.factor%20value&assay.parameter%20value&file.data%20type&format=html"

  /** `_build_assay_html_link`; `quote` is URL percent-encoding. */
  function AssayLink(dataset: Option<string>, assayName: Option<string>, quote: string -> string): (r: Option<string>)
    ensures r.Some? <==> Truthy(dataset) && Truthy(assayName)
    ensures r.Some? ==> StartsWith(r.value, MetaBase + "?id.accession=" + dataset.value)
    ensures r.Some? ==> EndsWith(r.value, "&id.assay%20name=" + quote(assayName.value) + AssayLinkTail)
  {
    if !Truthy(dataset) || !Truthy(assayName) then None
    else
      var head := MetaBase + "?id.accession=" + dataset.value;
      var tail := "&id.assay%20name=" + quote(assayName.value) + AssayLinkTail;
      assert (head + tail)[..|head|] == head;
      assert (head + tail)[|head + tail| - |tail|..] == tail;
      Some(head + tail)
  }

  /** `_build_dataset_html_link`. */
  function DatasetLink(dataset: Option<string>): (r: Option<string>)
    ensures r.Some? <==> Truthy(dataset)
    ensures r.Some? ==> StartsWith(r.value, DatasetBase + "/" + dataset.value)
    ensures r.Some? ==> EndsWith(r.value, "/?format=html")
  {
    if !Truthy(dataset) then None
    else
      var head := DatasetBase + "/" + dataset.value;
      assert (head + "/?format=html")[..|head|] == head;
      assert (head + "/?format=html")[|head| + 1..] == "?format=html";
      Some(head + "/?format=html")
  }

  /** One row reduced to what a card needs. */
  datatype Simple = Simple(
    dataset: Option<string>,
    assayName: Option<string>,
    organism: Option<string>,
    condition: Option<string>,
    technology: string,
    link: Option<string>,
    datasetLink: Option<string>)

  function Simplify(row: Row, quote: string -> string): (s: Simple)
    ensures s.dataset == Get(row, AccessionField) && s.assayName == Get(row, AssayNameField)
    ensures s.organism == Get(row, OrganismField) && s.condition == Get(row, ConditionField)
    ensures s.technology == TechLabel(Get(row, TechnologyField))
  {
    var ds := Get(row, AccessionField);
    var an := Get(row, AssayNameField);
    Simple(ds, an, Get(row, OrganismField), Get(row, ConditionField),
      TechLabel(Get(row, TechnologyField)), AssayLink(ds, an, quote), DatasetLink(ds))
  }

  // ---------------------------------------------------------------------
  // _dedup_cards

  type CardKey = (Option<string>, Option<string>)

  function KeyOf(r: Simple): CardKey {
    (r.dataset, r.assayName)
  }

  /** A card being merged: its conditions are a set kept in first-seen order. */
  datatype Acc = Acc(
    dataset: Option<string>,
    assayName: Option<string>,
    organism: Option<string>,
    technology: string,
    conds: seq<string>,
    link: Option<string>,
    datasetLink: Option<string>)

  /** Keeps `cur` unless it is falsy and `v` is not. */
  function Fill<T>(cur: T, v: T, truthy: T -> bool): T {
    if !truthy(cur) && truthy(v) then v else cur
  }

  predicate NonEmpty(s: string) { s != "" }

  function Start(r: Simple): Acc {
    Acc(r.dataset, r.assayName, r.organism, r.technology, [], r.link, r.datasetLink)
  }

  /** One row merged into its card: its non-empty condition is added, and
      each falsy field takes the row's value when the row has one. */
  function Absorb(a: Acc, r: Simple): Acc {
    a.(conds := if Truthy(r.condition) then Insert(a.conds, r.condition.value) else a.conds,
       organism := Fill(a.organism, r.organism, Truthy),
       technology := Fill(a.technology, r.technology, NonEmpty),
       link := Fill(a.link, r.link, Truthy),
       datasetLink := Fill(a.datasetLink, r.datasetLink, Truthy))
  }

  /** The `seen` dict: its keys in insertion order and its entries. */
  datatype Seen = Seen(keys: seq<CardKey>, accs: map<CardKey, Acc>)

  function SeenOf(rows: seq<Simple>): (s: Seen)
    ensures NoDup(s.keys)
    ensures forall k :: k in s.keys <==> k in s.accs
    decreases |rows|
  {
    if rows == [] then Seen([], map[])
    else
      var prev := SeenOf(rows[..|rows| - 1]);
      var r := rows[|rows| - 1];
      var k := KeyOf(r);
      if k in prev.accs then Seen(prev.keys, prev.accs[k := Absorb(prev.accs[k], r)])
      else Seen(prev.keys + [k], prev.accs[k := Absorb(Start(r), r)])
  }

  /** The rows of one key, in order. */
  function RowsWith(rows: seq<Simple>, k: CardKey): seq<Simple> {
    Filter(rows, (r: Simple) => KeyOf(r) == k)
  }

  /** The card of a list of rows merged in order, the first one opening it. */
  function AccOf(rs: seq<Simple>): Acc
    requires rs != []
    decreases |rs|
  {
    if |rs| == 1 then Absorb(Start(rs[0]), rs[0])
    else Absorb(AccOf(rs[..|rs| - 1]), rs[|rs| - 1])
  }

  lemma RowsWithSnoc(rows: seq<Simple>, r: Simple, k: CardKey)
    ensures RowsWith(rows + [r], k) == RowsWith(rows, k) + (if KeyOf(r) == k then [r] else [])
  {
    FilterAppend(rows, [r], (x: Simple) => KeyOf(x) == k);
  }

  /** The merged entry of a key is the merge of that key's rows, in order. */
  lemma {:induction false} SeenPerKey(rows: seq<Simple>, k: CardKey)
    ensures k in SeenOf(rows).accs <==> RowsWith(rows, k) != []
    ensures k in SeenOf(rows).accs ==> SeenOf(rows).accs[k] == AccOf(RowsWith(rows, k))
    decreases |rows|
  {
    if rows != [] {
      var n := |rows| - 1;
      var p := rows[..n];
      var r := rows[n];
      assert rows == p + [r];
      SeenPerKey(p, k);
      RowsWithSnoc(p, r, k);
      SeenStep(rows, n);
      var prev := SeenOf(p);
      var rs := RowsWith(p, k);
      if KeyOf(r) == k {
        assert RowsWith(rows, k) == rs + [r];
        if k in prev.accs {
          assert SeenOf(rows).accs[k] == Absorb(prev.accs[k], r);
          assert (rs + [r])[..|rs|] == rs;
        } else {
          assert SeenOf(rows).accs[k] == Absorb(Start(r), r);
        }
      } else {
        assert RowsWith(rows, k) == rs;
      }
    }
  }

  /** Merging fills a field with the first truthy value seen. */
  function FoldFill<T>(vs: seq<T>, truthy: T -> bool): T
    requires vs != []
    decreases |vs|
  {
    if |vs| == 1 then vs[0] else Fill(FoldFill(vs[..|vs| - 1], truthy), vs[|vs| - 1], truthy)
  }

  /** The merged value is the first truthy value, or the first value when
      none is truthy. */
  lemma {:induction false} FoldFillFirst<T>(vs: seq<T>, truthy: T -> bool)
    requires vs != []
    ensures var r := FoldFill(vs, truthy);
      && (truthy(r) <==> exists i | 0 <= i < |vs| :: truthy(vs[i]))
      && (truthy(r) ==> exists i | 0 <= i < |vs| :: r == vs[i] && forall j | 0 <= j < i :: !truthy(vs[j]))
      && (!truthy(r) ==> r == vs[0])
    decreases |vs|
  {
    if |vs| > 1 {
      var p := vs[..|vs| - 1];
      FoldFillFirst(p, truthy);
      var a := FoldFill(p, truthy);
      if truthy(a) {
        var i :| 0 <= i < |p| && a == p[i] && forall j | 0 <= j < i :: !truthy(p[j]);
        assert vs[i] == p[i];
      } else if truthy(vs[|vs| - 1]) {
        assert forall j | 0 <= j < |vs| - 1 :: vs[j] == p[j];
      } else {
        assert forall j | 0 <= j < |vs| - 1 :: vs[j] == p[j];
      }
    }
  }

  function Organisms(rs: seq<Simple>): seq<Option<string>> { Map(rs, (r: Simple) => r.organism) }
  function Technologies(rs: seq<Simple>): seq<string> { Map(rs, (r: Simple) => r.technology) }
  function Links(rs: seq<Simple>): seq<Option<string>> { Map(rs, (r: Simple) => r.link) }
  function DatasetLinks(rs: seq<Simple>): seq<Option<string>> { Map(rs, (r: Simple) => r.datasetLink) }

  /** The merge of a key's rows: the key of the first row, the non-empty
      conditions of all rows, and for each other field the first truthy
      value. */
  lemma {:induction false} AccOfSpec(rs: seq<Simple>)
    requires rs != []
    ensures AccOf(rs).dataset == rs[0].dataset && AccOf(rs).assayName == rs[0].assayName
    ensures forall c :: c in AccOf(rs).conds <==> exists i | 0 <= i < |rs| :: rs[i].condition == Some(c) && c != ""
    ensures AccOf(rs).organism == FoldFill(Organisms(rs), Truthy)
    ensures AccOf(rs).technology == FoldFill(Technologies(rs), NonEmpty)
    ensures AccOf(rs).link == FoldFill(Links(rs), Truthy)
    ensures AccOf(rs).datasetLink == FoldFill(DatasetLinks(rs), Truthy)
    decreases |rs|
  {
    if |rs| > 1 {
      var p := rs[..|rs| - 1];
      AccOfSpec(p);
      assert Organisms(rs)[..|rs| - 1] == Organisms(p);
      assert Technologies(rs)[..|rs| - 1] == Technologies(p);
      assert Links(rs)[..|rs| - 1] == Links(p);
      assert DatasetLinks(rs)[..|rs| - 1] == DatasetLinks(p);
      forall c ensures c in AccOf(rs).conds <==> exists i | 0 <= i < |rs| :: rs[i].condition == Some(c) && c != "" {
        if c in AccOf(rs).conds && !(c in AccOf(p).conds) {
          assert rs[|rs| - 1].condition == Some(c) && c != "";
        }
        if exists i | 0 <= i < |rs| :: rs[i].condition == Some(c) && c != "" {
          var i :| 0 <= i < |rs| && rs[i].condition == Some(c) && c != "";
          if i < |rs| - 1 {
            assert p[i] == rs[i];
          }
        }
      }
    }
  }

  // ---------------------------------------------------------------------
  // Cards

  datatype Card = Card(
    dataset: Option<string>,
    assayName: Option<string>,
    organism: Option<string>,
    technology: string,
    conditions: seq<string>,
    link: Option<string>,
    datasetLink: Option<string>,
    hasFlight: bool,
    hasGround: bool,
    hasBoth: bool)

  /** A flight condition: contains both "flight" and "space", or starts
      with "space", ignoring case. */
  predicate FlightLabel(c: string) {
    var l := Lower(c);
    (Contains(l, "flight") && Contains(l, "space")) || StartsWith(l, "space")
  }

  predicate GroundLabel(c: string) {
    Contains(Lower(c), "ground")
  }

  function AnyFlight(conds: seq<string>): (b: bool)
    ensures b <==> exists c | c in conds :: FlightLabel(c)
  {
    if conds == [] then false else FlightLabel(conds[0]) || AnyFlight(conds[1..])
  }

  function AnyGround(conds: seq<string>): (b: bool)
    ensures b <==> exists c | c in conds :: GroundLabel(c)
  {
    if conds == [] then false else GroundLabel(conds[0]) || AnyGround(conds[1..])
  }

  /** The finished card: conditions sorted, flags derived from them. */
  function Finish(a: Acc): Card {
    var conds := SortedSet(a.conds);
    var flight := AnyFlight(conds);
    var ground := AnyGround(conds);
    Card(a.dataset, a.assayName, a.organism, a.technology, conds, a.link, a.datasetLink,
      flight, ground, flight && ground)
  }

  function CardKeyOf(c: Card): CardKey {
    (c.dataset, c.assayName)
  }

  /** The stable card order: technology, dataset, assay name. */
  function CardOrder(c: Card): Key {
    [Text(c.technology), Text(c.dataset.GetOr("")), Text(c.assayName.GetOr(""))]
  }

  /** The finished card of a key of `accs`. */
  function FinishIn(accs: map<CardKey, Acc>): CardKey -> Card {
    (k: CardKey) => if k in accs then Finish(accs[k]) else Finish(Acc(k.0, k.1, None, "", [], None, None))
  }

  function FinishAll(keys: seq<CardKey>, accs: map<CardKey, Acc>): (cards: seq<Card>)
    requires forall k | k in keys :: k in accs
    ensures |cards| == |keys|
    ensures forall i {:trigger cards[i]} | 0 <= i < |keys| :: cards[i] == Finish(accs[keys[i]])
  {
    Map(keys, FinishIn(accs))
  }

  /** What `_dedup_cards` returns. */
  function Deduped(rows: seq<Simple>): seq<Card> {
    var s := SeenOf(rows);
    SortBy(FinishAll(s.keys, s.accs), CardOrder)
  }

  lemma SeenStep(rows: seq<Simple>, i: nat)
    requires i < |rows|
    ensures var prev := SeenOf(rows[..i]);
      var k := KeyOf(rows[i]);
      SeenOf(rows[..i + 1]) ==
        if k in prev.accs then Seen(prev.keys, prev.accs[k := Absorb(prev.accs[k], rows[i])])
        else Seen(prev.keys + [k], prev.accs[k := Absorb(Start(rows[i]), rows[i])])
  {
    assert rows[..i + 1][..i] == rows[..i];
  }

  /** `_dedup_cards`: the `seen` dict filled row by row, then one finished
      card per entry in insertion order, then the stable sort. */
  method DedupCards(rows: seq<Simple>) returns (cards: seq<Card>)
    ensures cards == Deduped(rows)
  {
    var keys: seq<CardKey> := [];
    var seen: map<CardKey, Acc> := map[];
    for i := 0 to |rows|
      invariant Seen(keys, seen) == SeenOf(rows[..i])
    {
      SeenStep(rows, i);
      var r := rows[i];
      var k := KeyOf(r);
      var entry := Start(r);
      if k in seen {
        entry := seen[k];
      } else {
        keys := keys + [k];
      }
      seen := seen[k := Absorb(entry, r)];
    }
    assert rows[..|rows|] == rows;
    cards := [];
    for j := 0 to |keys|
      invariant cards == MapPrefix(keys, FinishIn(seen), j)
    {
      cards := cards + [Finish(seen[keys[j]])];
    }
    MapPrefixAll(keys, FinishIn(seen));
    cards := SortBy(cards, CardOrder);
  }

  /** One card per distinct (dataset, assay name), sorted by technology,
      dataset and assay name. */
  lemma DedupedKeys(rows: seq<Simple>)
    ensures NoDup(Map(Deduped(rows), CardKeyOf))
    ensures forall k :: k in Map(Deduped(rows), CardKeyOf) <==> exists i | 0 <= i < |rows| :: KeyOf(rows[i]) == k
    ensures SortedBy(Deduped(rows), CardOrder)
    ensures |Deduped(rows)| <= |rows|
  {
    var s := SeenOf(rows);
    var fin := FinishAll(s.keys, s.accs);
    var cards := Deduped(rows);
    FinishedKeys(rows);
    PermutedKeys(fin, cards, CardKeyOf);
    forall k ensures k in Map(cards, CardKeyOf) <==> exists i | 0 <= i < |rows| :: KeyOf(rows[i]) == k {
      KeyOccurs(rows, k);
    }
    KeysBound(rows);
  }

  /** A key is merged exactly when some row has it. */
  lemma KeyOccurs(rows: seq<Simple>, k: CardKey)
    ensures k in SeenOf(rows).accs <==> exists i | 0 <= i < |rows| :: KeyOf(rows[i]) == k
  {
    SeenPerKey(rows, k);
    var rs := RowsWith(rows, k);
    if exists i | 0 <= i < |rows| :: KeyOf(rows[i]) == k {
      var i :| 0 <= i < |rows| && KeyOf(rows[i]) == k;
      assert rows[i] in rs;
    }
    if rs != [] {
      assert rs[0] in rows;
    }
  }

  /** Each finished card carries the key it was merged under. */
  lemma FinishedKeys(rows: seq<Simple>)
    ensures var s := SeenOf(rows); Map(FinishAll(s.keys, s.accs), CardKeyOf) == s.keys
  {
    var s := SeenOf(rows);
    var fin := FinishAll(s.keys, s.accs);
    forall i | 0 <= i < |fin| ensures CardKeyOf(fin[i]) == s.keys[i] {
      SeenPerKey(rows, s.keys[i]);
      AccOfSpec(RowsWith(rows, s.keys[i]));
    }
  }

  lemma {:induction false} KeysBound(rows: seq<Simple>)
    ensures |SeenOf(rows).keys| <= |rows|
    decreases |rows|
  {
    if rows != [] {
      KeysBound(rows[..|rows| - 1]);
    }
  }

  /** A permutation of a sequence whose keys are distinct has distinct keys,
      and the same ones. */
  lemma PermutedKeys<T, K>(fin: seq<T>, cards: seq<T>, f: T -> K)
    requires multiset(fin) == multiset(cards)
    requires NoDup(Map(fin, f))
    ensures NoDup(Map(cards, f))
    ensures forall k | k in Map(cards, f) :: k in Map(fin, f)
    ensures forall k | k in Map(fin, f) :: k in Map(cards, f)
  {
    assert NoDup(fin) by {
      forall i, j | 0 <= i < j < |fin| ensures fin[i] != fin[j] {
        assert Map(fin, f)[i] != Map(fin, f)[j];
      }
    }
    forall i, j | 0 <= i < j < |cards| ensures f(cards[i]) != f(cards[j]) {
      assert cards[i] in multiset(fin) && cards[j] in multiset(fin);
      var i' :| 0 <= i' < |fin| && fin[i'] == cards[i];
      var j' :| 0 <= j' < |fin| && fin[j'] == cards[j];
      if f(cards[i]) == f(cards[j]) {
        assert Map(fin, f)[i'] == Map(fin, f)[j'];
        assert i' == j';
        TwoOccurrences(cards, i, j);
        CountNoDup(fin, cards[i]);
        assert false;
      }
    }
    forall k | k in Map(cards, f) ensures k in Map(fin, f) {
      var i :| 0 <= i < |cards| && Map(cards, f)[i] == k;
      assert cards[i] in multiset(fin);
      var i' :| 0 <= i' < |fin| && fin[i'] == cards[i];
      assert Map(fin, f)[i'] == k;
    }
    forall k | k in Map(fin, f) ensures k in Map(cards, f) {
      var i :| 0 <= i < |fin| && Map(fin, f)[i] == k;
      assert fin[i] in multiset(cards);
      var i' :| 0 <= i' < |cards| && cards[i'] == fin[i];
      assert Map(cards, f)[i'] == k;
    }
  }

  /** Each card: its key's rows merged. Its conditions are exactly the
      non-empty conditions of those rows, strictly sorted; its flags follow
      from them; its organism, technology and links are the first truthy
      value among those rows, or the first row's value. */
  lemma DedupedCard(rows: seq<Simple>, card: Card)
    requires card in Deduped(rows)
    ensures var rs := RowsWith(rows, CardKeyOf(card));
      && rs != []
      && (forall c :: c in card.conditions <==> exists i | 0 <= i < |rs| :: rs[i].condition == Some(c) && c != "")
      && (forall i, j :: 0 <= i < j < |card.conditions| ==> StrLt(card.conditions[i], card.conditions[j]))
      && (card.hasFlight <==> exists c | c in card.conditions :: FlightLabel(c))
      && (card.hasGround <==> exists c | c in card.conditions :: GroundLabel(c))
      && card.hasBoth == (card.hasFlight && card.hasGround)
      && card.organism == FoldFill(Organisms(rs), Truthy)
      && card.technology == FoldFill(Technologies(rs), NonEmpty)
      && card.link == FoldFill(Links(rs), Truthy)
      && card.datasetLink == FoldFill(DatasetLinks(rs), Truthy)
  {
    var k := DedupedFrom(rows, card);
    FinishedCard(RowsWith(rows, k));
  }

  /** A card of the result is the finished merge of the rows of its key. */
  lemma DedupedFrom(rows: seq<Simple>, card: Card) returns (k: CardKey)
    requires card in Deduped(rows)
    ensures RowsWith(rows, k) != [] && card == Finish(AccOf(RowsWith(rows, k))) && CardKeyOf(card) == k
  {
    var s := SeenOf(rows);
    var fin := FinishAll(s.keys, s.accs);
    SortedMember(fin, CardOrder, card);
    var i :| 0 <= i < |fin| && fin[i] == card;
    k := s.keys[i];
    SeenPerKey(rows, k);
    MergedKey(RowsWith(rows, k), k);
  }

  /** A sorted sequence holds the elements it sorts. */
  lemma SortedMember<T>(s: seq<T>, key: T -> Key, x: T)
    requires x in SortBy(s, key)
    ensures x in s
  {
    assert x in multiset(SortBy(s, key));
  }

  /** Rows of one key merge into a card of that key. */
  lemma MergedKey(rs: seq<Simple>, k: CardKey)
    requires rs != [] && forall i :: 0 <= i < |rs| ==> KeyOf(rs[i]) == k
    ensures CardKeyOf(Finish(AccOf(rs))) == k
  {
    AccOfSpec(rs);
  }

  /** The finished merge of a key's rows. */
  lemma FinishedCard(rs: seq<Simple>)
    requires rs != []
    ensures var card := Finish(AccOf(rs));
      && (forall c :: c in card.conditions <==> exists i | 0 <= i < |rs| :: rs[i].condition == Some(c) && c != "")
      && (forall i, j :: 0 <= i < j < |card.conditions| ==> StrLt(card.conditions[i], card.conditions[j]))
      && (card.hasFlight <==> exists c | c in card.conditions :: FlightLabel(c))
      && (card.hasGround <==> exists c | c in card.conditions :: GroundLabel(c))
      && card.hasBoth == (card.hasFlight && card.hasGround)
      && card.organism == FoldFill(Organisms(rs), Truthy)
      && card.technology == FoldFill(Technologies(rs), NonEmpty)
      && card.link == FoldFill(Links(rs), Truthy)
      && card.datasetLink == FoldFill(DatasetLinks(rs), Truthy)
  {
    AccOfSpec(rs);
  }

  // ---------------------------------------------------------------------
  // _group_by_technology

  /** The bucket of a card: its technology, "Other / Unspecified" when empty. */
  function TechOf(c: Card): string {
    if c.technology == "" then OtherTech else c.technology
  }

  /** The buckets in insertion order, and their cards in order. */
  datatype Buckets = Buckets(order: seq<string>, items: map<string, seq<Card>>)

  function BucketsOf(cards: seq<Card>): (b: Buckets)
    ensures NoDup(b.order)
    ensures forall t :: t in b.order <==> t in b.items
    decreases |cards|
  {
    if cards == [] then Buckets([], map[])
    else
      var prev := BucketsOf(cards[..|cards| - 1]);
      var c := cards[|cards| - 1];
      var t := TechOf(c);
      if t in prev.items then Buckets(prev.order, prev.items[t := prev.items[t] + [c]])
      else Buckets(prev.order + [t], prev.items[t := [] + [c]])
  }

  function WithTech(cards: seq<Card>, t: string): seq<Card> {
    Filter(cards, (c: Card) => TechOf(c) == t)
  }

  /** A bucket holds exactly the cards of its technology, in order. */
  lemma {:induction false} BucketsSpec(cards: seq<Card>, t: string)
    ensures t in BucketsOf(cards).items <==> WithTech(cards, t) != []
    ensures t in BucketsOf(cards).items ==> BucketsOf(cards).items[t] == WithTech(cards, t)
    decreases |cards|
  {
    if cards != [] {
      var p := cards[..|cards| - 1];
      var c := cards[|cards| - 1];
      assert cards == p + [c];
      BucketsSpec(p, t);
      WithTechSnoc(p, c, t);
    }
  }

  lemma WithTechSnoc(p: seq<Card>, c: Card, t: string)
    ensures WithTech(p + [c], t) == WithTech(p, t) + (if TechOf(c) == t then [c] else [])
  {
    var q := (x: Card) => TechOf(x) == t;
    FilterAppend(p, [c], q);
    assert [c][1..] == [];
  }

  /** Comparability rank: both flags, then flight, then ground, then the rest. */
  function Rank(c: Card): real {
    if c.hasBoth then 0.0 else if c.hasFlight then 1.0 else if c.hasGround then 2.0 else 3.0
  }

  function ScoreKey(c: Card): Key {
    [Num(Rank(c)), Text(c.dataset.GetOr("")), Text(c.assayName.GetOr(""))]
  }

  predicate NotApplicable(x: string) {
    Contains(Lower(x), "not applicable")
  }

  /** The card as displayed: without "not applicable" conditions when asked;
      the flags are not recomputed. */
  function Shown(c: Card, excludeNa: bool): (d: Card)
    ensures d == c.(conditions := d.conditions)
    ensures forall x :: x in d.conditions <==> x in c.conditions && !(excludeNa && NotApplicable(x))
  {
    if excludeNa then c.(conditions := Filter(c.conditions, (x: string) => !NotApplicable(x))) else c
  }

  datatype Group = Group(technology: string, count: nat, assays: seq<Card>)

  /** `items[:limit] if limit else items`. */
  function View(items: seq<Card>, limit: nat): (r: seq<Card>)
    ensures |r| == if limit == 0 || |items| <= limit then |items| else limit
    ensures r == items[..|r|]
  {
    if limit == 0 then items else Take(items, limit)
  }

  function GroupOf(t: string, items: seq<Card>, limit: nat, excludeNa: bool): Group {
    var sorted := SortBy(items, ScoreKey);
    Group(t, |sorted|, View(Map(sorted, (c: Card) => Shown(c, excludeNa)), limit))
  }

  /** The interest of a technology; an unlisted one ranks 6. */
  function TechPriority(t: string): real {
    if t == RnaSeq then 0.0
    else if t == "DNA microarray" then 1.0
    else if t == "Proteomics" then 2.0
    else if t == "Imaging" then 3.0
    else if t == "Nanopore long read DNA Sequencing" then 4.0
    else if t == "Atomic Force Microscopy" then 5.0
    else if t == OtherTech then 9.0
    else 6.0
  }

  /** Unlisted technologies come after every listed one but before
      "Other / Unspecified". */
  lemma TechPriorityUnknown(t: string, listed: string)
    requires TechPriority(t) == 6.0
    requires listed in [RnaSeq, "DNA microarray", "Proteomics", "Imaging",
      "Nanopore long read DNA Sequencing", "Atomic Force Microscopy"]
    ensures TechPriority(listed) < TechPriority(t) < TechPriority(OtherTech)
  {
  }

  function TechOrder(g: Group): Key {
    [Num(TechPriority(g.technology)), Text(g.technology)]
  }

  function GroupsOf(order: seq<string>, items: map<string, seq<Card>>, limit: nat, excludeNa: bool): (gs: seq<Group>)
    requires forall t | t in order :: t in items
    ensures |gs| == |order|
    ensures forall i | 0 <= i < |order| :: gs[i] == GroupOf(order[i], items[order[i]], limit, excludeNa)
  {
    seq(|order|, i requires 0 <= i < |order| => GroupOf(order[i], items[order[i]], limit, excludeNa))
  }

  /** What `_group_by_technology` returns. */
  function Grouped(cards: seq<Card>, limit: nat, excludeNa: bool): seq<Group> {
    var b := BucketsOf(cards);
    SortBy(GroupsOf(b.order, b.items, limit, excludeNa), TechOrder)
  }

  lemma BucketsStep(cards: seq<Card>, i: nat)
    requires i < |cards|
    ensures var prev := BucketsOf(cards[..i]);
      var t := TechOf(cards[i]);
      BucketsOf(cards[..i + 1]) ==
        if t in prev.items then Buckets(prev.order, prev.items[t := prev.items[t] + [cards[i]]])
        else Buckets(prev.order + [t], prev.items[t := [] + [cards[i]]])
  {
    assert cards[..i + 1][..i] == cards[..i];
  }

  /** The loop of `_group_by_technology` that overwrites each ranked card's
      conditions with those that are not "not applicable". */
  method HideNotApplicable(sorted: seq<Card>) returns (items: seq<Card>)
    ensures items == Map(sorted, (c: Card) => Shown(c, true))
  {
    items := sorted;
    for m := 0 to |items|
      invariant |items| == |sorted|
      invariant forall n | 0 <= n < m :: items[n] == Shown(sorted[n], true)
      invariant forall n | m <= n < |items| :: items[n] == sorted[n]
    {
      items := items[m := items[m].(conditions := Filter(items[m].conditions, (x: string) => !NotApplicable(x)))];
    }
  }

  lemma GroupsOfStep(order: seq<string>, items: map<string, seq<Card>>, limit: nat, excludeNa: bool, j: nat)
    requires forall t | t in order :: t in items
    requires j < |order|
    ensures GroupsOf(order[..j + 1], items, limit, excludeNa)
      == GroupsOf(order[..j], items, limit, excludeNa) + [GroupOf(order[j], items[order[j]], limit, excludeNa)]
  {
  }

  /** `_group_by_technology`: buckets filled with `setdefault().append`, each
      bucket ranked, its conditions overwritten when asked, cut to
      `limit_per_tech`, then the groups sorted by interest and name. */
  method GroupByTechnology(cards: seq<Card>, limit: nat, excludeNa: bool) returns (groups: seq<Group>)
    ensures groups == Grouped(cards, limit, excludeNa)
  {
    var order, buckets := BucketCards(cards);
    groups := [];
    for j := 0 to |order|
      invariant groups == GroupsOf(order[..j], buckets, limit, excludeNa)
    {
      var g := BuildGroup(order[j], buckets[order[j]], limit, excludeNa);
      GroupsOfStep(order, buckets, limit, excludeNa, j);
      groups := groups + [g];
    }
    assert order[..|order|] == order;
    groups := SortBy(groups, TechOrder);
  }

  /** The first loop of `_group_by_technology`: each card appended to its
      technology's bucket, the technologies in first-seen order. */
  method BucketCards(cards: seq<Card>) returns (order: seq<string>, buckets: map<string, seq<Card>>)
    ensures Buckets(order, buckets) == BucketsOf(cards)
  {
    order, buckets := [], map[];
    for i := 0 to |cards|
      invariant Buckets(order, buckets) == BucketsOf(cards[..i])
    {
      BucketsStep(cards, i);
      var t := TechOf(cards[i]);
      var bucket := [];
      if t in buckets {
        bucket := buckets[t];
      } else {
        order := order + [t];
      }
      buckets := buckets[t := bucket + [cards[i]]];
    }
    assert cards[..|cards|] == cards;
  }

  /** One bucket's group: its cards ranked, shown and cut to the limit. */
  method BuildGroup(t: string, bucket: seq<Card>, limit: nat, excludeNa: bool) returns (g: Group)
    ensures g == GroupOf(t, bucket, limit, excludeNa)
  {
    var sorted := SortBy(bucket, ScoreKey);
    var items := sorted;
    if excludeNa {
      items := HideNotApplicable(sorted);
    }
    assert items == Map(sorted, (c: Card) => Shown(c, excludeNa));
    g := Group(t, |sorted|, View(items, limit));
  }

  function Technology(g: Group): string { g.technology }

  lemma GroupsOfTechnologies(order: seq<string>, items: map<string, seq<Card>>, limit: nat, excludeNa: bool)
    requires forall t | t in order :: t in items
    ensures Map(GroupsOf(order, items, limit, excludeNa), Technology) == order
  {
  }

  /** One group per technology that occurs, each technology once, in order
      of interest and then name; so every card is in exactly one group. */
  lemma GroupedTechnologies(cards: seq<Card>, limit: nat, excludeNa: bool)
    ensures NoDup(Map(Grouped(cards, limit, excludeNa), Technology))
    ensures forall t :: t in Map(Grouped(cards, limit, excludeNa), Technology) <==> exists i | 0 <= i < |cards| :: TechOf(cards[i]) == t
    ensures SortedBy(Grouped(cards, limit, excludeNa), TechOrder)
  {
    var b := BucketsOf(cards);
    var gs := GroupsOf(b.order, b.items, limit, excludeNa);
    var g := Grouped(cards, limit, excludeNa);
    GroupsOfTechnologies(b.order, b.items, limit, excludeNa);
    assert g == SortBy(gs, TechOrder);
    PermutedKeys(gs, g, Technology);
    BucketOrders(cards);
    forall t ensures t in Map(g, Technology) <==> exists i | 0 <= i < |cards| :: TechOf(cards[i]) == t {
      assert t in Map(g, Technology) <==> t in b.order;
    }
  }

  lemma BucketOrders(cards: seq<Card>)
    ensures forall t :: t in BucketsOf(cards).order <==> exists i | 0 <= i < |cards| :: TechOf(cards[i]) == t
  {
    forall t ensures t in BucketsOf(cards).order <==> exists i | 0 <= i < |cards| :: TechOf(cards[i]) == t {
      BucketOrder(cards, t);
    }
  }

  /** The bucket order lists exactly the technologies that occur. */
  lemma BucketOrder(cards: seq<Card>, t: string)
    ensures t in BucketsOf(cards).order <==> exists i | 0 <= i < |cards| :: TechOf(cards[i]) == t
  {
    BucketsSpec(cards, t);
    var ws := WithTech(cards, t);
    if exists i | 0 <= i < |cards| :: TechOf(cards[i]) == t {
      var i :| 0 <= i < |cards| && TechOf(cards[i]) == t;
      assert cards[i] in ws;
    }
    if ws != [] {
      assert ws[0] in cards;
    }
  }

  /** Showing a card keeps its rank, its keys and its technology. */
  lemma ShownKeeps(c: Card, excludeNa: bool)
    ensures ScoreKey(Shown(c, excludeNa)) == ScoreKey(c)
    ensures TechOf(Shown(c, excludeNa)) == TechOf(c)
  {
  }

  /** A ranked, shown and cut bucket stays ranked, and holds shown cards of
      the bucket. */
  lemma RankedBucket(items: seq<Card>, limit: nat, excludeNa: bool, t: string)
    requires forall c | c in items :: TechOf(c) == t
    ensures var v := View(Map(SortBy(items, ScoreKey), (c: Card) => Shown(c, excludeNa)), limit);
      && SortedBy(v, ScoreKey)
      && (forall c | c in v :: TechOf(c) == t)
      && (forall c | c in v :: exists d | d in items :: c == Shown(d, excludeNa))
  {
    var sorted := SortBy(items, ScoreKey);
    var shown := Map(sorted, (c: Card) => Shown(c, excludeNa));
    var v := View(shown, limit);
    assert forall m | 0 <= m < |v| :: v[m] == Shown(sorted[m], excludeNa);
    forall c | c in v ensures TechOf(c) == t && exists d | d in items :: c == Shown(d, excludeNa) {
      var m :| 0 <= m < |v| && v[m] == c;
      assert sorted[m] in multiset(items);
      ShownKeeps(sorted[m], excludeNa);
    }
    forall m, n | 0 <= m < n < |v| ensures KeyLe(ScoreKey(v[m]), ScoreKey(v[n])) {
      ShownKeeps(sorted[m], excludeNa);
      ShownKeeps(sorted[n], excludeNa);
    }
  }

  /** A group: its count is the number of cards of its technology; its
      assays are that bucket ranked (both flags, flight, ground, rest, then
      dataset and name), shown, and cut to `limit_per_tech`. */
  lemma GroupedGroup(cards: seq<Card>, limit: nat, excludeNa: bool, g: Group)
    requires g in Grouped(cards, limit, excludeNa)
    ensures var bucket := WithTech(cards, g.technology);
      && bucket != []
      && g.count == |bucket|
      && g.assays == View(Map(SortBy(bucket, ScoreKey), (c: Card) => Shown(c, excludeNa)), limit)
      && |g.assays| == (if limit == 0 || g.count <= limit then g.count else limit)
      && SortedBy(g.assays, ScoreKey)
      && (forall c | c in g.assays :: TechOf(c) == g.technology)
      && (forall c | c in g.assays :: exists d | d in cards :: c == Shown(d, excludeNa))
  {
    var b := BucketsOf(cards);
    var gs := GroupsOf(b.order, b.items, limit, excludeNa);
    assert g in multiset(gs);
    var i :| 0 <= i < |gs| && gs[i] == g;
    var t := b.order[i];
    BucketsSpec(cards, t);
    var bucket := WithTech(cards, t);
    assert g == GroupOf(t, bucket, limit, excludeNa);
    RankedBucket(bucket, limit, excludeNa, t);
  }

  // ---------------------------------------------------------------------
  // _build_params

  type Param = (string, string)

  const FormatParam: Param := ("format", "json.records")

  /** The output fields every query asks for. */
  const OutputSelectors: seq<Param> := [(OrganismField, ""), (ConditionField, ""), (TechnologyField, "")]

  /** A case-insensitive regular expression over the whole value. */
  function Regex(s: string): string {
    "/" + s + "/i"
  }

  /** The condition filter: flight, ground, presence of the field, or none. */
  function ConditionFilter(condition: string): Option<Param> {
    var c := Lower(Strip(condition));
    if c == "spaceflight" || c == "flight" then Some((ConditionField, "/flight/i"))
    else if c == "ground" || c == "ground control" || c == "control" then Some((ConditionField, "/ground/i"))
    else if c == "any" || c == "present" then Some(("", ConditionField))
    else None
  }

  /** Each recognised condition word, after stripping and lower-casing,
      selects its filter, and only it does; any other word selects none. */
  lemma ConditionFilterSpec(condition: string)
    ensures var c := Lower(Strip(condition)); var p := ConditionFilter(condition);
      && (c == "spaceflight" || c == "flight" <==> p == Some((ConditionField, "/flight/i")))
      && (c == "ground" || c == "ground control" || c == "control" <==> p == Some((ConditionField, "/ground/i")))
      && (c == "any" || c == "present" <==> p == Some(("", ConditionField)))
      && (p.Some? ==> p.value.1 != "")
  {
  }

  /** A filter as the parameters it adds: none or one. */
  function Opt(x: Option<Param>): seq<Param> {
    if x.Some? then [x.value] else []
  }

  function When(given: bool, p: Param): Option<Param> {
    if given then Some(p) else None
  }

  /** The filters in their fixed order: dataset, organism, assay name,
      technology, condition; each present iff its input is non-empty (the
      condition also only when it is a recognised one). */
  function FilterParams(organism: string, condition: string, assayRegex: string, technologyRegex: string, dataset: string): seq<Param> {
    Opt(When(dataset != "", (AccessionField, dataset)))
    + Opt(When(organism != "", (OrganismField, Regex(organism))))
    + Opt(When(assayRegex != "", (AssayNameField, Regex(assayRegex))))
    + Opt(When(technologyRegex != "", (TechnologyField, Regex(technologyRegex))))
    + Opt(if condition != "" then ConditionFilter(condition) else None)
  }

  /** `_build_params`: the format, then the filters, then the selectors. */
  method BuildParams(organism: string, condition: string, assayRegex: string, technologyRegex: string, dataset: string)
    returns (params: seq<Param>)
    ensures |params| >= 4 && params[0] == FormatParam
    ensures params[|params| - 3..] == OutputSelectors
    ensures params[1..|params| - 3] == FilterParams(organism, condition, assayRegex, technologyRegex, dataset)
  {
    var s0 := When(dataset != "", (AccessionField, dataset));
    var s1 := When(organism != "", (OrganismField, Regex(organism)));
    var s2 := When(assayRegex != "", (AssayNameField, Regex(assayRegex)));
    var s3 := When(technologyRegex != "", (TechnologyField, Regex(technologyRegex)));
    var s4 := if condition != "" then ConditionFilter(condition) else None;
    params := [FormatParam];
    params := AddIf(params, s0);
    params := AddIf(params, s1);
    params := AddIf(params, s2);
    params := AddIf(params, s3);
    params := AddIf(params, s4);
    assert params[1..] == Opt(s0) + Opt(s1) + Opt(s2) + Opt(s3) + Opt(s4);
    params := params + OutputSelectors;
    assert params[1..|params| - 3] == (params[..|params| - 3])[1..];
  }

  /** `_add` of a filter when it is given. */
  method AddIf(params: seq<Param>, filter: Option<Param>) returns (r: seq<Param>)
    requires params != []
    ensures r == params + Opt(filter)
    ensures r[1..] == params[1..] + Opt(filter)
  {
    r := params;
    if filter.Some? {
      r := r + [filter.value];
    }
  }

  // ---------------------------------------------------------------------
  // /assays/search

  datatype AssayAnswer = CardList(count: nat, cards: seq<Card>) | GroupList(groups: seq<Group>)

  /** `/assays/search` after the rows are fetched: the rows simplified and
      deduplicated, returned as cards or grouped by technology. */
  method SearchAssays(data: seq<Row>, quote: string -> string, groupByTechnology: bool, limit: nat, excludeNa: bool)
    returns (ans: AssayAnswer)
    ensures ans.CardList? <==> !groupByTechnology
    ensures ans.CardList? ==> ans.cards == Deduped(Map(data, (r: Row) => Simplify(r, quote))) && ans.count == |ans.cards|
    ensures ans.GroupList? ==> ans.groups == Grouped(Deduped(Map(data, (r: Row) => Simplify(r, quote))), limit, excludeNa)
  {
    var simplified: seq<Simple> := [];
    for i := 0 to |data|
      invariant simplified == Map(data[..i], (r: Row) => Simplify(r, quote))
    {
      simplified := simplified + [Simplify(data[i], quote)];
    }
    assert data[..|data|] == data;
    var cards := DedupCards(simplified);
    if !groupByTechnology {
      return CardList(|cards|, cards);
    }
    var groups := GroupByTechnology(cards, limit, excludeNa);
    ans := GroupList(groups);
  }
}
