/** The first half of `/gaps/search`: rows read into observations and the
    observations bucketed into the indices the coverage, the gaps and the
    signals are computed from. */
module GapIndex {
  import opened Wrappers
  import opened Strings
  import opened Collections
  import opened GapFinder

  /** One observation, the tuple `gaps_search` appends: organism, raw
      tissue, normalised condition, assay type, accession, assay name and
      coarse condition. */
  datatype Obs = Obs(
    organism: string,
    tissue: Option<string>,
    condNorm: string,
    assay: string,
    accession: string,
    assayName: Option<string>,
    coarse: string)

  /** The condition a row is filed under: its normalised condition, or
      "Unknown" when it has none. */
  function CondNormOf(row: Row): (r: string)
    ensures r != []
    ensures ConditionOfRow(row).Some? ==> r == ConditionOfRow(row).value
  {
    var c := ConditionOfRow(row);
    if c.Some? && c.value != [] then c.value else "Unknown"
  }

  /** The observation a row yields: none unless it has an organism, an
      assay type and an accession. */
  function Observe(row: Row): (r: Option<Obs>)
    ensures r.Some? <==> OrganismOf(row).Some? && TechnologyOf(row).Some? && NormStr(Get(row, AccessionField)).Some?
    ensures r.Some? ==> r.value.organism == OrganismOf(row).value && r.value.assay == TechnologyOf(row).value
    ensures r.Some? ==> r.value.tissue == PickTissue(row) && r.value.condNorm == CondNormOf(row)
    ensures r.Some? ==> r.value.accession == NormStr(Get(row, AccessionField)).value
    ensures r.Some? ==> r.value.assayName == NormStr(Get(row, AssayNameField))
    ensures r.Some? ==> r.value.coarse == ObservedCoarse(r.value.condNorm)
    ensures r.Some? ==> r.value.coarse == Spaceflight || r.value.coarse == GroundAnalog
  {
    var organism := OrganismOf(row);
    var assayType := TechnologyOf(row);
    var condNorm := CondNormOf(row);
    var accession := NormStr(Get(row, AccessionField));
    if organism.Some? && assayType.Some? && accession.Some? then
      Some(Obs(organism.value, PickTissue(row), condNorm, assayType.value, accession.value,
               NormStr(Get(row, AssayNameField)), ObservedCoarse(condNorm)))
    else None
  }

  /** A row without a condition is filed under "Unknown", which counts as
      Ground/Analog. */
  lemma UnknownIsGround()
    ensures ObservedCoarse("Unknown") == GroundAnalog
  {
    UnknownLow(Lower("Unknown"));
  }

  lemma UnknownLow(low: string)
    requires low == "unknown"
    ensures !Contains(low, "space") && !Contains(low, "pre-flight") && !Contains(low, "post-flight")
    ensures !Contains(low, "in-flight") && !Contains(low, "ground") && !Contains(low, "analog")
    ensures !Contains(low, "vivarium") && !Contains(low, "control") && !Contains(low, "flight")
  {
    UnknownNoFlight(low);
    UnknownNoGround(low);
  }

  lemma UnknownNoFlight(low: string)
    requires low == "unknown"
    ensures !Contains(low, "space") && !Contains(low, "pre-flight") && !Contains(low, "post-flight")
    ensures !Contains(low, "in-flight") && !Contains(low, "flight")
  {
    NotContaining(low, "space", 's');
    NotContaining(low, "pre-flight", 'f');
    NotContaining(low, "post-flight", 'f');
    NotContaining(low, "in-flight", 'f');
    NotContaining(low, "flight", 'f');
  }

  lemma UnknownNoGround(low: string)
    requires low == "unknown"
    ensures !Contains(low, "ground") && !Contains(low, "analog")
    ensures !Contains(low, "vivarium") && !Contains(low, "control")
  {
    NotContaining(low, "ground", 'g');
    NotContaining(low, "analog", 'a');
    NotContaining(low, "vivarium", 'v');
    NotContaining(low, "control", 'c');
  }

  /** The observations of the rows, in row order; an observation is listed
      exactly when some row yields it. */
  function Observations(rows: seq<Row>): (r: seq<Obs>)
    ensures |r| <= |rows|
    ensures forall o | o in r :: exists i :: 0 <= i < |rows| && Observe(rows[i]) == Some(o)
    ensures forall i | 0 <= i < |rows| && Observe(rows[i]).Some? :: Observe(rows[i]).value in r
  {
    ValuesLength(rows, Observe);
    Values(rows, Observe)
  }

  /** The assay type of each observation, the multiset `assay_freq_global`
      counts. */
  function AssayTypes(obs: seq<Obs>): (r: seq<string>)
    ensures |r| == |obs|
    ensures forall i :: 0 <= i < |obs| ==> r[i] == obs[i].assay
  {
    Map(obs, (o: Obs) => o.assay)
  }

  /** What the observing loop has collected from `rows`. */
  ghost predicate Read(rows: seq<Row>, observed: seq<Obs>, tissues: seq<string>, freq: seq<string>) {
    observed == Observations(rows) && tissues == Values(rows, PickTissue) && freq == AssayTypes(observed)
  }

  /** One more row read: its observation, if any, and its tissue, if any,
      are appended. */
  /** Reading one more row appends its tissue, if any, and its observation
      and assay type, if it yields one. */
  lemma ReadStep(rows: seq<Row>, i: nat, observed: seq<Obs>, tissues: seq<string>, freq: seq<string>,
                 tissue: Option<string>, ob: Option<Obs>)
    requires i < |rows| && Read(rows[..i], observed, tissues, freq)
    requires tissue == PickTissue(rows[i]) && ob == Observe(rows[i])
    ensures Read(rows[..i + 1], observed + Listed(ob), tissues + Listed(tissue),
                 freq + (if ob.Some? then [ob.value.assay] else []))
  {
    ObservationsStep(rows, i);
    TissuesStep(rows, i);
    AssayTypesStep(observed, ob);
  }

  function Listed<B>(x: Option<B>): (r: seq<B>)
    ensures x.None? ==> r == []
    ensures x.Some? ==> r == [x.value]
  {
    if x.Some? then [x.value] else []
  }

  lemma AssayTypesSnoc(obs: seq<Obs>, o: Obs)
    ensures AssayTypes(obs + [o]) == AssayTypes(obs) + [o.assay]
  {
    var a, b := AssayTypes(obs + [o]), AssayTypes(obs) + [o.assay];
    assert |a| == |b|;
    forall k | 0 <= k < |a| ensures a[k] == b[k] {
      if k < |obs| {
        assert (obs + [o])[k] == obs[k];
      }
    }
  }

  lemma ObservationsStep(rows: seq<Row>, i: nat)
    requires i < |rows|
    ensures Observations(rows[..i + 1]) == Observations(rows[..i]) + Listed(Observe(rows[i]))
  {
    ValuesStep(rows, i, Observe);
  }

  lemma TissuesStep(rows: seq<Row>, i: nat)
    requires i < |rows|
    ensures Values(rows[..i + 1], PickTissue) == Values(rows[..i], PickTissue) + Listed(PickTissue(rows[i]))
  {
    ValuesStep(rows, i, PickTissue);
  }

  lemma AssayTypesStep(obs: seq<Obs>, ob: Option<Obs>)
    ensures AssayTypes(obs + Listed(ob)) == AssayTypes(obs) + (if ob.Some? then [ob.value.assay] else [])
  {
    if ob.Some? {
      AssayTypesSnoc(obs, ob.value);
    } else {
      assert obs + Listed(ob) == obs;
    }
  }

  lemma ObserveUnfold(row: Row)
    ensures Observe(row) == (if OrganismOf(row).Some? && TechnologyOf(row).Some? && NormStr(Get(row, AccessionField)).Some? then
      Some(Obs(OrganismOf(row).value, PickTissue(row), CondNormOf(row), TechnologyOf(row).value,
        NormStr(Get(row, AccessionField)).value, NormStr(Get(row, AssayNameField)), ObservedCoarse(CondNormOf(row))))
      else None)
  {
  }

  /** The body of the observing loop for one row: its tissue, read before
      anything else is checked, and its observation, if it has an organism,
      an assay type and an accession. */
  method ObserveRow(row: Row) returns (tissue: Option<string>, ob: Option<Obs>)
    ensures tissue == PickTissue(row) && ob == Observe(row)
  {
    ObserveUnfold(row);
    var organism := NormStr(Get(row, OrganismField));
    var assayType := NormStr(Get(row, TechnologyField));
    var condNorm := CondNormOf(row);
    var condCoarse := ObservedCoarse(condNorm);
    tissue := PickTissue(row);
    var accession := NormStr(Get(row, AccessionField));
    var assayName := NormStr(Get(row, AssayNameField));
    if organism.Some? && assayType.Some? && accession.Some? {
      ob := Some(Obs(organism.value, tissue, condNorm, assayType.value, accession.value, assayName, condCoarse));
    } else {
      ob := None;
    }
  }

  /** The observing loop of `gaps_search`. Tissues are seen in every row,
      before the check for organism, assay type and accession; the assay
      frequencies count the observations before any condition filter. */
  method ObserveRows(rows: seq<Row>) returns (observed: seq<Obs>, tissues: seq<string>, freq: seq<string>)
    ensures observed == Observations(rows)
    ensures tissues == Values(rows, PickTissue)
    ensures freq == AssayTypes(observed)
  {
    observed, tissues, freq := [], [], [];
    for i := 0 to |rows|
      invariant Read(rows[..i], observed, tissues, freq)
    {
      var tissue, ob := ObserveRow(rows[i]);
      ReadStep(rows, i, observed, tissues, freq, tissue, ob);
      if tissue.Some? {
        tissues := tissues + [tissue.value];
      }
      if ob.Some? {
        observed := observed + [ob.value];
        freq := freq + [ob.value.assay];
      }
    }
    assert rows[..|rows|] == rows;
  }

  // ---------------------------------------------------------------------
  // The defaultdict(set) indices

  /** A `defaultdict(set)` kept as a map to sequences without repeats. */
  type Index<K> = map<K, seq<string>>

  /** `index[k].add(v)`. */
  function Add<K>(m: Index<K>, k: K, v: string): (r: Index<K>)
    ensures k in r && v in r[k]
    ensures forall k' | k' in m :: k' in r
    ensures forall k' | k' in r :: k' == k || k' in m
  {
    m[k := Insert(if k in m then m[k] else [], v)]
  }

  /** `index.get(k, set())`. */
  function Lookup<K>(m: Index<K>, k: K): seq<string> {
    if k in m then m[k] else []
  }

  /** The index filled from the observations: each observation's value
      added under its key. */
  function Group<K>(obs: seq<Obs>, key: Obs -> K, val: Obs -> string): Index<K>
    decreases |obs|
  {
    if obs == [] then map[]
    else
      var o := obs[|obs| - 1];
      Add(Group(obs[..|obs| - 1], key, val), key(o), val(o))
  }

  lemma GroupStep<K>(obs: seq<Obs>, i: nat, key: Obs -> K, val: Obs -> string)
    requires i < |obs|
    ensures Group(obs[..i + 1], key, val) == Add(Group(obs[..i], key, val), key(obs[i]), val(obs[i]))
  {
    assert obs[..i + 1][..i] == obs[..i];
  }

  /** Some observation is filed under `k`. */
  ghost predicate KeySeen<K>(obs: seq<Obs>, key: Obs -> K, k: K) {
    exists i :: 0 <= i < |obs| && key(obs[i]) == k
  }

  /** Some observation filed under `k` carries `x`. */
  ghost predicate PairSeen<K>(obs: seq<Obs>, key: Obs -> K, val: Obs -> string, k: K, x: string) {
    exists i :: 0 <= i < |obs| && key(obs[i]) == k && val(obs[i]) == x
  }

  /** The index has a key exactly for the keys observed, and under each key
      exactly the values observed with it, each once. */
  lemma {:induction false} GroupSpec<K>(obs: seq<Obs>, key: Obs -> K, val: Obs -> string, k: K, x: string)
    ensures k in Group(obs, key, val) <==> KeySeen(obs, key, k)
    ensures (k in Group(obs, key, val) && x in Group(obs, key, val)[k]) <==> PairSeen(obs, key, val, k, x)
    ensures k in Group(obs, key, val) ==> NoDup(Group(obs, key, val)[k]) && Group(obs, key, val)[k] != []
    decreases |obs|
  {
    if obs != [] {
      var p := obs[..|obs| - 1];
      var o := obs[|obs| - 1];
      GroupSpec(p, key, val, k, x);
      if KeySeen(p, key, k) {
        var i :| 0 <= i < |p| && key(p[i]) == k;
        assert key(obs[i]) == k;
      }
      if KeySeen(obs, key, k) && key(o) != k {
        var i :| 0 <= i < |obs| && key(obs[i]) == k;
        assert i < |p| && key(p[i]) == k;
      }
      if PairSeen(p, key, val, k, x) {
        var i :| 0 <= i < |p| && key(p[i]) == k && val(p[i]) == x;
        assert key(obs[i]) == k && val(obs[i]) == x;
      }
      if PairSeen(obs, key, val, k, x) && !(key(o) == k && val(o) == x) {
        var i :| 0 <= i < |obs| && key(obs[i]) == k && val(obs[i]) == x;
        assert i < |p| && key(p[i]) == k && val(p[i]) == x;
      }
    }
  }

  /** The keys of an index in insertion order, the order of `items()`. */
  function KeysInOrder<K(==)>(obs: seq<Obs>, key: Obs -> K): (r: seq<K>)
    ensures NoDup(r)
  {
    Distinct(Map(obs, key))
  }

  /** Insertion order lists every key of the index once. */
  lemma KeysInOrderSpec<K>(obs: seq<Obs>, key: Obs -> K, val: Obs -> string, k: K)
    ensures k in KeysInOrder(obs, key) <==> k in Group(obs, key, val)
  {
    GroupSpec(obs, key, val, k, []);
    var ks := Map(obs, key);
    if k in ks {
      var i :| 0 <= i < |ks| && ks[i] == k;
      assert key(obs[i]) == k;
    }
    if KeySeen(obs, key, k) {
      var i :| 0 <= i < |obs| && key(obs[i]) == k;
      assert ks[i] == k;
    }
  }

  /** The tissue parent an observation is bucketed under. */
  function Parent(o: Obs): Option<string> {
    ParentTissueName(o.tissue)
  }

  type Combo4 = (string, Option<string>, string, string)
  type Combo3 = (string, Option<string>, string)

  function FineKey(o: Obs): (string, Option<string>, string, string) { (o.organism, o.tissue, o.condNorm, o.assay) }
  function CoarseKey(o: Obs): Combo4 { (o.organism, Parent(o), o.coarse, o.assay) }
  function ComboKey(o: Obs): Combo3 { (o.organism, Parent(o), o.coarse) }
  function PhaseKey(o: Obs): (string, Option<string>) { (o.organism, Parent(o)) }
  function SpeciesKey(o: Obs): (Option<string>, string, string) { (Parent(o), o.coarse, o.assay) }

  function Accession(o: Obs): string { o.accession }
  function AssayOf(o: Obs): string { o.assay }
  function CondNorm(o: Obs): string { o.condNorm }
  function Organism(o: Obs): string { o.organism }

  /** The six indices of `gaps_search`. */
  datatype Indices = Indices(
    coverage: Index<(string, Option<string>, string, string)>,
    coverageCoarse: Index<Combo4>,
    dsAny: Index<Combo3>,
    assaysPresent: Index<Combo3>,
    phases: Index<(string, Option<string>)>,
    species: Index<(Option<string>, string, string)>)

  /** Accessions by fine and by coarse combination, accessions and assay
      types by organism, tissue parent and coarse condition, fine conditions
      by organism and tissue parent, organisms by tissue parent, coarse
      condition and assay type. */
  function IndicesOf(obs: seq<Obs>): Indices {
    Indices(
      Group(obs, FineKey, Accession),
      Group(obs, CoarseKey, Accession),
      Group(obs, ComboKey, Accession),
      Group(obs, ComboKey, AssayOf),
      Group(obs, PhaseKey, CondNorm),
      Group(obs, SpeciesKey, Organism))
  }

  lemma IndicesStep(obs: seq<Obs>, i: nat)
    requires i < |obs|
    ensures var o := obs[i]; var ix := IndicesOf(obs[..i]);
      IndicesOf(obs[..i + 1]) == Indices(
        Add(ix.coverage, FineKey(o), o.accession),
        Add(ix.coverageCoarse, CoarseKey(o), o.accession),
        Add(ix.dsAny, ComboKey(o), o.accession),
        Add(ix.assaysPresent, ComboKey(o), o.assay),
        Add(ix.phases, PhaseKey(o), o.condNorm),
        Add(ix.species, SpeciesKey(o), o.organism))
  {
    GroupStep(obs, i, FineKey, Accession);
    GroupStep(obs, i, CoarseKey, Accession);
    GroupStep(obs, i, ComboKey, Accession);
    GroupStep(obs, i, ComboKey, AssayOf);
    GroupStep(obs, i, PhaseKey, CondNorm);
    GroupStep(obs, i, SpeciesKey, Organism);
  }

  /** The indexing loop of `gaps_search`: every observation's accession,
      assay type, condition and organism added under its keys. */
  method BuildIndices(observed: seq<Obs>) returns (ix: Indices)
    ensures ix == IndicesOf(observed)
  {
    var coverage, coverageCoarse, dsAny, assaysPresent, phases, species := map[], map[], map[], map[], map[], map[];
    for i := 0 to |observed|
      invariant Indices(coverage, coverageCoarse, dsAny, assaysPresent, phases, species) == IndicesOf(observed[..i])
    {
      var o := observed[i];
      IndicesStep(observed, i);
      var tissueParent := ParentTissueName(o.tissue);
      coverage := Add(coverage, (o.organism, o.tissue, o.condNorm, o.assay), o.accession);
      coverageCoarse := Add(coverageCoarse, (o.organism, tissueParent, o.coarse, o.assay), o.accession);
      dsAny := Add(dsAny, (o.organism, tissueParent, o.coarse), o.accession);
      assaysPresent := Add(assaysPresent, (o.organism, tissueParent, o.coarse), o.assay);
      phases := Add(phases, (o.organism, tissueParent), o.condNorm);
      species := Add(species, (tissueParent, o.coarse, o.assay), o.organism);
    }
    assert observed[..|observed|] == observed;
    ix := Indices(coverage, coverageCoarse, dsAny, assaysPresent, phases, species);
  }
}
