/** The middle of `/gaps/search`: the scope the filters and the
    observations span, the coverage of each coarse combination, and the
    gaps, the combinations of the scope that no observation covers. */
module GapScope {
  import opened Wrappers
  import opened Strings
  import opened Collections
  import opened Ordering
  import opened GapFinder
  import opened GapIndex

  /** The filters a query is mapped to. A list that is absent or empty leaves
      its dimension open; a condition other than "Spaceflight" and
      "Ground/Analog" (the default is "Ambas") asks for both. An empty
      tissue list is not the same as none: it gives an empty tissue scope. */
  datatype Filters = Filters(
    organisms: Option<seq<string>>,
    assays: Option<seq<string>>,
    condition: string,
    tissues: Option<seq<string>>)

  /** A list filter that is present and non-empty. */
  predicate Given(x: Option<seq<string>>) {
    x.Some? && x.value != []
  }

  /** With a fixed condition, only the observations whose coarse condition
      is that condition are kept. */
  function ByCondition(observed: seq<Obs>, condition: string): (r: seq<Obs>)
    ensures Fixed(condition) ==> forall i :: 0 <= i < |r| ==> r[i].coarse == condition && r[i] in observed
    ensures Fixed(condition) ==> forall i :: 0 <= i < |observed| && observed[i].coarse == condition ==> observed[i] in r
    ensures !Fixed(condition) ==> r == observed
  {
    if Fixed(condition) then Filter(observed, (o: Obs) => o.coarse == condition) else observed
  }

  /** The four scopes, kept as sequences whose elements are the members of
      the source's sets. */
  datatype Scope = Scope(
    organisms: seq<string>,
    assays: seq<string>,
    tissues: seq<Option<string>>,
    conditions: seq<string>)

  /** The scopes: the given organisms and assays, else those observed; the
      given tissues, else the tissues seen, else only "no tissue"; the fixed
      condition, else the coarse conditions observed. */
  function ScopeOf(f: Filters, observed: seq<Obs>, tissuesSeen: seq<string>): (sc: Scope)
    ensures Given(f.organisms) ==> sc.organisms == f.organisms.value
    ensures !Given(f.organisms) ==> forall i :: 0 <= i < |observed| ==> observed[i].organism in sc.organisms
    ensures !Given(f.organisms) ==> forall x | x in sc.organisms :: exists i :: 0 <= i < |observed| && observed[i].organism == x
    ensures Given(f.assays) ==> sc.assays == f.assays.value
    ensures !Given(f.assays) ==> forall i :: 0 <= i < |observed| ==> observed[i].assay in sc.assays
    ensures !Given(f.assays) ==> forall x | x in sc.assays :: exists i :: 0 <= i < |observed| && observed[i].assay == x
    ensures f.tissues.Some? ==> forall t :: t in sc.tissues <==> t.Some? && t.value in f.tissues.value
    ensures f.tissues.None? && tissuesSeen != [] ==> forall t :: t in sc.tissues <==> t.Some? && t.value in tissuesSeen
    ensures f.tissues.None? && tissuesSeen == [] ==> sc.tissues == [None]
    ensures Fixed(f.condition) ==> sc.conditions == [f.condition]
    ensures !Fixed(f.condition) ==> forall i :: 0 <= i < |observed| ==> observed[i].coarse in sc.conditions
    ensures !Fixed(f.condition) ==> forall x | x in sc.conditions :: exists i :: 0 <= i < |observed| && observed[i].coarse == x
  {
    var organisms := if Given(f.organisms) then f.organisms.value else Images(observed, Organism);
    var assays := if Given(f.assays) then f.assays.value else Images(observed, AssayOf);
    var tissues :=
      if f.tissues.Some? then SomeOf(f.tissues.value)
      else if tissuesSeen != [] then SomeOf(tissuesSeen)
      else [None];
    var conditions := if Fixed(f.condition) then [f.condition] else Images(observed, (o: Obs) => o.coarse);
    Scope(organisms, assays, tissues, conditions)
  }

  /** One field of each observed row, in row order. */
  function Images(observed: seq<Obs>, field: Obs -> string): (r: seq<string>)
    ensures forall i :: 0 <= i < |observed| ==> field(observed[i]) in r
    ensures forall x | x in r :: exists i :: 0 <= i < |observed| && field(observed[i]) == x
  {
    MapMembers(observed, field);
    Map(observed, field)
  }

  /** Each text as a present optional text. */
  function SomeOf(ts: seq<string>): (r: seq<Option<string>>)
    ensures forall t :: t in r <==> t.Some? && t.value in ts
  {
    var r := Map(ts, (t: string) => Some(t));
    assert forall t | t in r :: t.Some? && t.value in ts;
    assert forall i | 0 <= i < |ts| :: r[i] == Some(ts[i]);
    r
  }

  /** `{_parent_tissue_name(t) for t in tissues_scope}`. */
  function TissueParents(tissues: seq<Option<string>>): (r: seq<Option<string>>)
    ensures forall i :: 0 <= i < |tissues| ==> ParentTissueName(tissues[i]) in r
    ensures forall p | p in r :: exists i :: 0 <= i < |tissues| && ParentTissueName(tissues[i]) == p
  {
    MapMembers(tissues, ParentTissueName);
    Map(tissues, ParentTissueName)
  }

  /** The test a coverage key must pass: organism, assay type and coarse
      condition in scope, and a tissue parent that some scoped tissue has, or
      none when "no tissue" is in scope. */
  predicate InScope(sc: Scope, k: Combo4) {
    && k.0 in sc.organisms
    && k.3 in sc.assays
    && k.2 in sc.conditions
    && (k.1 in TissueParents(sc.tissues) || (k.1.None? && None in sc.tissues))
  }

  // ---------------------------------------------------------------------
  // Coverage rows and covered keys

  datatype CoverageRow = CoverageRow(key: Combo4, datasets: nat, status: string)

  /** A row for a coarse key with `n` distinct accessions. */
  function RowOf(k: Combo4, n: nat, minDatasets: int): (r: CoverageRow)
    ensures r.key == k && r.datasets == n
    ensures r.status == "covered" <==> n >= minDatasets
    ensures r.status == "covered" || r.status == "weak"
  {
    CoverageRow(k, n, if n >= minDatasets then "covered" else "weak")
  }

  /** The rows of the scoped coarse keys, in the index's insertion order. */
  function CoverageRows(keys: seq<Combo4>, m: Index<Combo4>, sc: Scope, minDatasets: int): seq<CoverageRow> {
    Map(Filter(keys, (k: Combo4) => InScope(sc, k)), (k: Combo4) => RowOf(k, |Lookup(m, k)|, minDatasets))
  }

  /** The scoped coarse keys with at least one accession. */
  function CoveredKeys(keys: seq<Combo4>, m: Index<Combo4>, sc: Scope): seq<Combo4> {
    Filter(keys, (k: Combo4) => InScope(sc, k) && |Lookup(m, k)| >= 1)
  }

  /** Every coverage row counts the distinct accessions of its key and is
      "covered" exactly when that count reaches the threshold. */
  lemma CoverageRowsSpec(obs: seq<Obs>, sc: Scope, minDatasets: int, i: nat)
    requires i < |CoverageRows(KeysInOrder(obs, CoarseKey), Group(obs, CoarseKey, Accession), sc, minDatasets)|
    ensures var m := Group(obs, CoarseKey, Accession);
      var r := CoverageRows(KeysInOrder(obs, CoarseKey), m, sc, minDatasets)[i];
      && InScope(sc, r.key) && r.key in m
      && r.datasets == |m[r.key]| && NoDup(m[r.key])
      && (forall a | a in m[r.key] :: PairSeen(obs, CoarseKey, Accession, r.key, a))
      && (r.status == "covered" <==> r.datasets >= minDatasets)
  {
    var m := Group(obs, CoarseKey, Accession);
    var keys := KeysInOrder(obs, CoarseKey);
    var scoped := Filter(keys, (k: Combo4) => InScope(sc, k));
    var k := scoped[i];
    KeysInOrderSpec(obs, CoarseKey, Accession, k);
    GroupSpec(obs, CoarseKey, Accession, k, []);
    forall a | a in m[k] ensures PairSeen(obs, CoarseKey, Accession, k, a) {
      GroupSpec(obs, CoarseKey, Accession, k, a);
    }
  }

  /** A key is covered exactly when it is in scope and observed. */
  lemma CoveredKeysSpec(obs: seq<Obs>, sc: Scope, k: Combo4)
    ensures k in CoveredKeys(KeysInOrder(obs, CoarseKey), Group(obs, CoarseKey, Accession), sc)
      <==> InScope(sc, k) && KeySeen(obs, CoarseKey, k)
  {
    var m := Group(obs, CoarseKey, Accession);
    var keys := KeysInOrder(obs, CoarseKey);
    KeysInOrderSpec(obs, CoarseKey, Accession, k);
    GroupSpec(obs, CoarseKey, Accession, k, []);
    var p := (k: Combo4) => InScope(sc, k) && |Lookup(m, k)| >= 1;
    if InScope(sc, k) && KeySeen(obs, CoarseKey, k) {
      var j :| 0 <= j < |keys| && keys[j] == k;
      assert p(keys[j]);
    }
  }

  ghost predicate Tallied(keys: seq<Combo4>, m: Index<Combo4>, sc: Scope, minDatasets: int, rows: seq<CoverageRow>, covered: seq<Combo4>) {
    rows == CoverageRows(keys, m, sc, minDatasets) && covered == CoveredKeys(keys, m, sc)
  }

  lemma TalliedStep(keys: seq<Combo4>, m: Index<Combo4>, sc: Scope, minDatasets: int, i: nat, rows: seq<CoverageRow>, covered: seq<Combo4>)
    requires i < |keys| && keys[i] in m && Tallied(keys[..i], m, sc, minDatasets, rows, covered)
    ensures var k := keys[i];
      Tallied(keys[..i + 1], m, sc, minDatasets,
        rows + (if InScope(sc, k) then [RowOf(k, |m[k]|, minDatasets)] else []),
        covered + (if InScope(sc, k) && |m[k]| >= 1 then [k] else []))
  {
    var k := keys[i];
    assert keys[..i + 1] == keys[..i] + [k];
    var inScope := (k: Combo4) => InScope(sc, k);
    var row := (k: Combo4) => RowOf(k, |Lookup(m, k)|, minDatasets);
    FilterAppend(keys[..i], [k], inScope);
    FilterAppend(keys[..i], [k], (k: Combo4) => InScope(sc, k) && |Lookup(m, k)| >= 1);
    MapSnoc(Filter(keys[..i], inScope), k, row);
  }

  /** The coverage loop of `gaps_search` over the coarse index in insertion
      order: a row per scoped key, and the scoped keys with an accession. */
  method CoverageLoop(keys: seq<Combo4>, m: Index<Combo4>, sc: Scope, minDatasets: int)
    returns (rows: seq<CoverageRow>, covered: seq<Combo4>)
    requires forall k | k in keys :: k in m
    ensures rows == CoverageRows(keys, m, sc, minDatasets)
    ensures covered == CoveredKeys(keys, m, sc)
  {
    rows, covered := [], [];
    for i := 0 to |keys|
      invariant Tallied(keys[..i], m, sc, minDatasets, rows, covered)
    {
      var k := keys[i];
      TalliedStep(keys, m, sc, minDatasets, i, rows, covered);
      if InScope(sc, k) {
        var n := |m[k]|;
        rows := rows + [RowOf(k, n, minDatasets)];
        if n >= 1 {
          covered := covered + [k];
        }
      }
    }
    assert keys[..|keys|] == keys;
  }

  // ---------------------------------------------------------------------
  // The universe and the gaps

  /** `itertools.product(a, b)`: every pair, the first component varying
      slowest. */
  function Pairs<A, B>(a: seq<A>, b: seq<B>): (r: seq<(A, B)>)
    ensures |r| == |a| * |b|
    decreases |a|
  {
    if a == [] then []
    else
      var rest := Pairs(a[1..], b);
      assert |a| * |b| == |b| + (|a| - 1) * |b|;
      Map(b, (y: B) => (a[0], y)) + rest
  }

  /** A pair is in the product exactly when its components are in the
      factors. */
  lemma {:induction false} PairsMember<A, B>(a: seq<A>, b: seq<B>, x: A, y: B)
    ensures (x, y) in Pairs(a, b) <==> x in a && y in b
    decreases |a|
  {
    if a != [] {
      PairsMember(a[1..], b, x, y);
      var row := Map(b, (z: B) => (a[0], z));
      assert Pairs(a, b) == row + Pairs(a[1..], b);
      if x == a[0] && y in b {
        var j :| 0 <= j < |b| && b[j] == y;
        assert row[j] == (x, y);
      }
      if (x, y) in row {
        var j :| 0 <= j < |row| && row[j] == (x, y);
      }
      if x in a && x != a[0] {
        assert x in a[1..];
      }
    }
  }

  function Flatten(p: (string, (Option<string>, (string, string)))): Combo4 {
    (p.0, p.1.0, p.1.1.0, p.1.1.1)
  }

  /** The four-way product, in the order `itertools.product` yields it. */
  function Product(a: seq<string>, b: seq<Option<string>>, c: seq<string>, d: seq<string>): (r: seq<Combo4>)
    ensures |r| == |a| * |b| * |c| * |d|
  {
    var r := Map(Pairs(a, Pairs(b, Pairs(c, d))), Flatten);
    assert |a| * (|b| * (|c| * |d|)) == |a| * |b| * |c| * |d|;
    r
  }

  lemma ProductMember(a: seq<string>, b: seq<Option<string>>, c: seq<string>, d: seq<string>, k: Combo4)
    ensures k in Product(a, b, c, d) <==> k.0 in a && k.1 in b && k.2 in c && k.3 in d
  {
    var cd := Pairs(c, d);
    var bcd := Pairs(b, cd);
    var all := Pairs(a, bcd);
    var p := (k.0, (k.1, (k.2, k.3)));
    PairsMember(c, d, k.2, k.3);
    PairsMember(b, cd, k.1, (k.2, k.3));
    PairsMember(a, bcd, k.0, (k.1, (k.2, k.3)));
    var pr := Product(a, b, c, d);
    assert pr == Map(all, Flatten);
    if p in all {
      var j :| 0 <= j < |all| && all[j] == p;
      assert pr[j] == Flatten(all[j]);
    }
    if k in pr {
      var j :| 0 <= j < |pr| && pr[j] == k;
      assert Flatten(all[j]) == k;
      assert all[j] == p;
    }
  }

  /** Tissue parents sort with no tissue read as the empty text. */
  function TissueSortKey(t: Option<string>): Key {
    TextKey(if t.None? then "" else t.value)
  }

  /** The sorted scopes whose product is the universe. */
  datatype Axes = Axes(organisms: seq<string>, tissues: seq<Option<string>>, conditions: seq<string>, assays: seq<string>)

  function AxesOf(sc: Scope): (ax: Axes)
    ensures forall x :: x in ax.organisms <==> x in sc.organisms
    ensures forall t | t in ax.tissues :: t in TissueParents(sc.tissues)
    ensures forall t | t in TissueParents(sc.tissues) :: t in ax.tissues
    ensures forall x :: x in ax.conditions <==> x in sc.conditions
    ensures forall x :: x in ax.assays <==> x in sc.assays
    ensures NoDup(ax.organisms) && NoDup(ax.tissues) && NoDup(ax.conditions) && NoDup(ax.assays)
    ensures SortedBy(ax.tissues, TissueSortKey)
  {
    Axes(SortedSet(sc.organisms), SortedDistinct(TissueParents(sc.tissues), TissueSortKey),
         SortedSet(sc.conditions), SortedSet(sc.assays))
  }

  function Universe(sc: Scope): seq<Combo4> {
    var ax := AxesOf(sc);
    Product(ax.organisms, ax.tissues, ax.conditions, ax.assays)
  }

  /** The universe is the product of the scopes, and has as many elements
      as the scopes' sizes multiplied. */
  lemma UniverseSpec(sc: Scope, k: Combo4)
    ensures k in Universe(sc) <==> k.0 in sc.organisms && k.1 in TissueParents(sc.tissues) && k.2 in sc.conditions && k.3 in sc.assays
    ensures k in Universe(sc) ==> InScope(sc, k)
    ensures var ax := AxesOf(sc);
      |Universe(sc)| == |ax.organisms| * |ax.tissues| * |ax.conditions| * |ax.assays|
  {
    var ax := AxesOf(sc);
    ProductMember(ax.organisms, ax.tissues, ax.conditions, ax.assays, k);
  }

  /** The gap loop: the universe's combinations that are not covered. */
  method CollectGaps(universe: seq<Combo4>, covered: seq<Combo4>) returns (gaps: seq<Combo4>)
    ensures gaps == Filter(universe, (k: Combo4) => k !in covered)
  {
    gaps := [];
    for i := 0 to |universe|
      invariant gaps == Filter(universe[..i], (k: Combo4) => k !in covered)
    {
      var k := universe[i];
      assert universe[..i + 1] == universe[..i] + [k];
      FilterAppend(universe[..i], [k], (k: Combo4) => k !in covered);
      if k !in covered {
        gaps := gaps + [k];
      }
    }
    assert universe[..|universe|] == universe;
  }

  /** The gaps of a search, before the final sort. */
  function Gaps(obs: seq<Obs>, sc: Scope): seq<Combo4> {
    var covered := CoveredKeys(KeysInOrder(obs, CoarseKey), Group(obs, CoarseKey, Accession), sc);
    Filter(Universe(sc), (k: Combo4) => k !in covered)
  }

  /** A gap is exactly a combination of the scopes that no observation
      covers; there are at most as many gaps as combinations. */
  lemma GapsSpec(obs: seq<Obs>, sc: Scope, k: Combo4)
    ensures k in Gaps(obs, sc) <==>
      k.0 in sc.organisms && k.1 in TissueParents(sc.tissues) && k.2 in sc.conditions && k.3 in sc.assays
      && !KeySeen(obs, CoarseKey, k)
    ensures |Gaps(obs, sc)| <= |Universe(sc)|
  {
    var covered := CoveredKeys(KeysInOrder(obs, CoarseKey), Group(obs, CoarseKey, Accession), sc);
    var p := (k: Combo4) => k !in covered;
    UniverseSpec(sc, k);
    CoveredKeysSpec(obs, sc, k);
    if k in Universe(sc) && p(k) {
      var j :| 0 <= j < |Universe(sc)| && Universe(sc)[j] == k;
      assert p(Universe(sc)[j]);
    }
  }

  /** The order the gaps are returned in: organism, tissue (none as the
      empty text), condition, assay type. */
  function GapKey(k: Combo4): Key {
    [Text(k.0), Text(if k.1.None? then "" else k.1.value), Text(k.2), Text(k.3)]
  }

  /** `gaps.sort(key=...)`: the same gaps, in key order, ties in universe
      order. */
  function SortGaps(gaps: seq<Combo4>): (r: seq<Combo4>)
    ensures multiset(r) == multiset(gaps)
    ensures SortedBy(r, GapKey)
  {
    SortBy(gaps, GapKey)
  }
}
