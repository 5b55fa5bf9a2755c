/** The end of `/gaps/search`: the signals each gap is scored by, its main
    reason, and the ranking of the highlights. */
module GapRank {
  import opened Wrappers
  import opened Strings
  import opened Collections
  import opened Ordering
  import opened GapFinder
  import opened GapIndex
  import opened GapScope

  function Min(a: int, b: int): int {
    if a <= b then a else b
  }

  /** `_ground_base_signal`: for a spaceflight gap, the ground datasets of
      the same organism and tissue parent, capped at 3, as a fraction. */
  function GroundSignal(ix: Indices, org: string, tis: Option<string>, cond: string): (s: real)
    ensures 0.0 <= s <= 1.0
    ensures cond != Spaceflight ==> s == 0.0
    ensures cond == Spaceflight ==> (s == 0.0 <==> Lookup(ix.dsAny, (org, tis, GroundAnalog)) == [])
    ensures s == 1.0 <==> cond == Spaceflight && |Lookup(ix.dsAny, (org, tis, GroundAnalog))| >= 3
  {
    if cond != Spaceflight then 0.0
    else
      var dsG := |Lookup(ix.dsAny, (org, tis, GroundAnalog))|;
      if dsG > 0 then (Min(dsG, 3) as real) / 3.0 else 0.0
  }

  /** Some of the texts, lower-cased, contains `sub`. */
  predicate AnyContains(xs: seq<string>, sub: string) {
    exists a | a in xs :: Contains(Lower(a), sub)
  }

  /** `_multiomics_signal`: nothing without other assay types on the same
      organism, tissue parent and condition; full when the gap adds
      proteomics to RNA or RNA to proteomics; half otherwise. */
  function MultiOmicsSignal(ix: Indices, org: string, tis: Option<string>, assay: string, cond: string): (s: real)
    ensures s == 0.0 || s == 0.5 || s == 1.0
    ensures s == 0.0 <==> Lookup(ix.assaysPresent, (org, tis, cond)) == []
    ensures s == 1.0 <==>
      var present := Lookup(ix.assaysPresent, (org, tis, cond));
      present != [] &&
      ((StartsWith(Lower(assay), "proteom") && AnyContains(present, "rna")) ||
       (Contains(Lower(assay), "rna") && AnyContains(present, "proteom")))
  {
    var present := Lookup(ix.assaysPresent, (org, tis, cond));
    if present == [] then 0.0
    else if StartsWith(Lower(assay), "proteom") && AnyContains(present, "rna") then 1.0
    else if Contains(Lower(assay), "rna") && AnyContains(present, "proteom") then 1.0
    else if |present| >= 1 then 0.5
    else 0.0
  }

  /** The flight phases recorded for an organism and tissue parent. */
  datatype Phases = Phases(hasPre: bool, hasIn: bool, hasPost: bool)

  predicate PrePhase(p: string) { Contains(p, "pre") && Contains(p, "flight") }
  predicate InPhase(p: string) { Contains(p, "in-flight") || (Contains(p, "in") && Contains(p, "flight")) }
  predicate PostPhase(p: string) { Contains(p, "post") && Contains(p, "flight") }

  function PhasesOf(ix: Indices, org: string, tis: Option<string>): (ph: Phases)
    ensures ph.hasPre <==> exists p | p in Lookup(ix.phases, (org, tis)) :: PrePhase(Lower(p))
    ensures ph.hasIn <==> exists p | p in Lookup(ix.phases, (org, tis)) :: InPhase(Lower(p))
    ensures ph.hasPost <==> exists p | p in Lookup(ix.phases, (org, tis)) :: PostPhase(Lower(p))
  {
    var conds := Lookup(ix.phases, (org, tis));
    var phases := Map(conds, Lower);
    assert forall p | p in conds :: Lower(p) in phases by {
      forall p | p in conds ensures Lower(p) in phases {
        var i :| 0 <= i < |conds| && conds[i] == p;
        assert phases[i] == Lower(p);
      }
    }
    Phases(
      exists p | p in phases :: PrePhase(p),
      exists p | p in phases :: InPhase(p),
      exists p | p in phases :: PostPhase(p))
  }

  /** `_phase_signal`: for a spaceflight gap, full when in-flight data is
      missing but pre- or post-flight data exists, half when in-flight data
      exists but pre- or post-flight data is missing. */
  function PhaseSignal(ix: Indices, org: string, tis: Option<string>, cond: string): (s: real)
    ensures s == 0.0 || s == 0.5 || s == 1.0
    ensures cond != Spaceflight ==> s == 0.0
    ensures var ph := PhasesOf(ix, org, tis);
      (s == 1.0 <==> cond == Spaceflight && !ph.hasIn && (ph.hasPre || ph.hasPost)) &&
      (s == 0.5 <==> cond == Spaceflight && ph.hasIn && (!ph.hasPre || !ph.hasPost))
  {
    var ph := PhasesOf(ix, org, tis);
    if cond != Spaceflight then 0.0
    else if !ph.hasIn && (ph.hasPre || ph.hasPost) then 1.0
    else if ph.hasIn && (!ph.hasPre || !ph.hasPost) then 0.5
    else 0.0
  }

  /** `_xspecies_signal`: nothing unless another organism has the same
      tissue parent, condition and assay type; full between mouse and human;
      half otherwise. */
  function XSpeciesSignal(ix: Indices, org: string, tis: Option<string>, assay: string, cond: string): (s: real)
    ensures s == 0.0 || s == 0.5 || s == 1.0
    ensures s == 0.0 <==> forall x | x in Lookup(ix.species, (tis, cond, assay)) :: x == org
    ensures s == 1.0 <==> exists x | x in Lookup(ix.species, (tis, cond, assay)) :: x != org && MouseHuman(x, org)
  {
    var speciesSet := Lookup(ix.species, (tis, cond, assay));
    if speciesSet == [] then 0.0
    else
      var others := Filter(speciesSet, (x: string) => x != org);
      if others == [] then
        assert forall i | 0 <= i < |speciesSet| :: speciesSet[i] == org;
        0.0
      else
        assert others[0] in speciesSet && others[0] != org;
        var lowerOthers := Map(others, Lower);
        MapMembers(others, Lower);
        if ("mus musculus" in lowerOthers && Lower(org) == "homo sapiens")
          || ("homo sapiens" in lowerOthers && Lower(org) == "mus musculus") then 1.0
        else 0.5
  }

  /** One of the two organisms is mouse and the other human, in any case. */
  predicate MouseHuman(x: string, org: string) {
    (Lower(x) == "mus musculus" && Lower(org) == "homo sapiens") ||
    (Lower(x) == "homo sapiens" && Lower(org) == "mus musculus")
  }

  /** `set(s)`. */
  function ToSet(s: seq<string>): (r: set<string>)
    ensures forall x :: x in r <==> x in s
  {
    set x | x in s
  }

  /** The accessions gathered by `_neighbor_density_signal`: the union over
      the index entries, in order, whose tissue parent and condition match. */
  function Neighbors(keys: seq<Combo3>, m: Index<Combo3>, tis: Option<string>, cond: string): set<string>
    decreases |keys|
  {
    if keys == [] then {}
    else
      var k := keys[|keys| - 1];
      Neighbors(keys[..|keys| - 1], m, tis, cond) + (if k.1 == tis && k.2 == cond then ToSet(Lookup(m, k)) else {})
  }

  /** The neighbourhood is every accession of every observation, of any
      organism, with that tissue parent and coarse condition. */
  lemma {:induction false} NeighborsSpec(obs: seq<Obs>, tis: Option<string>, cond: string, a: string)
    ensures a in Neighbors(KeysInOrder(obs, ComboKey), Group(obs, ComboKey, Accession), tis, cond)
      <==> exists i :: 0 <= i < |obs| && Parent(obs[i]) == tis && obs[i].coarse == cond && obs[i].accession == a
  {
    var keys := KeysInOrder(obs, ComboKey);
    var m := Group(obs, ComboKey, Accession);
    NeighborsMember(keys, m, tis, cond, a);
    if exists i :: 0 <= i < |obs| && Parent(obs[i]) == tis && obs[i].coarse == cond && obs[i].accession == a {
      var i :| 0 <= i < |obs| && Parent(obs[i]) == tis && obs[i].coarse == cond && obs[i].accession == a;
      var k := ComboKey(obs[i]);
      assert PairSeen(obs, ComboKey, Accession, k, a);
      GroupSpec(obs, ComboKey, Accession, k, a);
      KeysInOrderSpec(obs, ComboKey, Accession, k);
    }
    if a in Neighbors(keys, m, tis, cond) {
      var k :| k in keys && k.1 == tis && k.2 == cond && a in Lookup(m, k);
      KeysInOrderSpec(obs, ComboKey, Accession, k);
      GroupSpec(obs, ComboKey, Accession, k, a);
      var i :| 0 <= i < |obs| && ComboKey(obs[i]) == k && Accession(obs[i]) == a;
    }
  }

  lemma {:induction false} NeighborsMember(keys: seq<Combo3>, m: Index<Combo3>, tis: Option<string>, cond: string, a: string)
    ensures a in Neighbors(keys, m, tis, cond) <==> exists k | k in keys :: k.1 == tis && k.2 == cond && a in Lookup(m, k)
    decreases |keys|
  {
    if keys != [] {
      var p := keys[..|keys| - 1];
      var k := keys[|keys| - 1];
      NeighborsMember(p, m, tis, cond, a);
      assert keys == p + [k];
    }
  }

  function NeighborStep(seen: set<string>, k: Combo3, m: Index<Combo3>, tis: Option<string>, cond: string): set<string> {
    seen + (if k.1 == tis && k.2 == cond then ToSet(Lookup(m, k)) else {})
  }

  /** The loop of `_neighbor_density_signal` over the index entries: the
      distinct accessions gathered, capped at 5, as a fraction. */
  method NeighborDensityOf(keys: seq<Combo3>, m: Index<Combo3>, tis: Option<string>, cond: string) returns (s: real)
    ensures s == NeighborSignal(keys, m, tis, cond)
  {
    var seen: set<string> := {};
    for i := 0 to |keys|
      invariant seen == Neighbors(keys[..i], m, tis, cond)
    {
      var k := keys[i];
      assert keys[..i + 1][..i] == keys[..i];
      if k.1 == tis && k.2 == cond {
        seen := seen + ToSet(Lookup(m, k));
      }
    }
    assert keys[..|keys|] == keys;
    var total := |seen|;
    s := (Min(total, 5) as real) / 5.0;
  }

  function NeighborSignal(keys: seq<Combo3>, m: Index<Combo3>, tis: Option<string>, cond: string): (s: real)
    ensures 0.0 <= s <= 1.0
    ensures s == 0.0 <==> Neighbors(keys, m, tis, cond) == {}
    ensures s == 1.0 <==> |Neighbors(keys, m, tis, cond)| >= 5
  {
    (Min(|Neighbors(keys, m, tis, cond)|, 5) as real) / 5.0
  }

  /** The largest number of occurrences of an element of `xs` in `s`. */
  function MaxCount(xs: seq<string>, s: seq<string>): (r: nat)
    ensures forall x | x in xs :: Count(s, x) <= r
    ensures xs != [] ==> exists x | x in xs :: Count(s, x) == r
    decreases |xs|
  {
    if xs == [] then 0
    else
      var rest := MaxCount(xs[1..], s);
      var c := Count(s, xs[0]);
      if c >= rest then c else rest
  }

  /** `_feasibility_signal`: how often the assay type was observed, against
      the most frequent one. */
  function FeasibilitySignal(freq: seq<string>, assay: string): (s: real)
    ensures 0.0 <= s <= 1.0
    ensures freq == [] ==> s == 0.0
    ensures s == 0.0 <==> assay !in freq
    ensures s == 1.0 <==> freq != [] && forall x | x in freq :: Count(freq, x) <= Count(freq, assay)
  {
    if freq == [] then 0.0
    else
      var mx := MaxCount(freq, freq);
      var c := Count(freq, assay);
      MaxCountBounds(freq, assay);
      if mx == 0 then 0.0
      else
        FractionOfMax(c, mx);
        (c as real) / (mx as real)
  }

  /** The most frequent element of a non-empty sequence occurs, and no
      element occurs more often. */
  lemma MaxCountBounds(freq: seq<string>, assay: string)
    requires freq != []
    ensures 0 < MaxCount(freq, freq) && Count(freq, assay) <= MaxCount(freq, freq)
    ensures Count(freq, assay) == MaxCount(freq, freq) <==> forall x | x in freq :: Count(freq, x) <= Count(freq, assay)
  {
    assert Count(freq, freq[0]) > 0;
    if assay !in freq {
      assert Count(freq, assay) == 0;
    }
  }

  lemma FractionOfMax(c: nat, mx: nat)
    requires 0 < mx && c <= mx
    ensures 0.0 <= (c as real) / (mx as real) <= 1.0
    ensures (c as real) / (mx as real) == 0.0 <==> c == 0
    ensures (c as real) / (mx as real) == 1.0 <==> c == mx
  {
    var q := (c as real) / (mx as real);
    assert q * (mx as real) == c as real;
  }

  /** The (tissue, condition, assay type) of each gap, which
      `similar_group_counts` counts. */
  function Similar(gaps: seq<Combo4>): seq<(Option<string>, string, string)> {
    Map(gaps, (g: Combo4) => (g.1, g.2, g.3))
  }

  /** `_redundancy_penalty`: the other gaps with the same tissue, condition
      and assay type, capped at 4, as a fraction. */
  function RedundancyPenalty(gaps: seq<Combo4>, tis: Option<string>, cond: string, assay: string): (s: real)
    ensures 0.0 <= s <= 1.0
    ensures s == 0.0 <==> Count(Similar(gaps), (tis, cond, assay)) <= 1
    ensures s == 1.0 <==> Count(Similar(gaps), (tis, cond, assay)) >= 5
  {
    var cnt := Count(Similar(gaps), (tis, cond, assay));
    if cnt <= 1 then 0.0 else (Min(cnt - 1, 4) as real) / 4.0
  }

  datatype Signals = Signals(ground: real, multi: real, phase: real, xspecies: real, neighbor: real, feas: real, redund: real)

  predicate InUnit(x: real) { 0.0 <= x <= 1.0 }

  predicate Bounded(s: Signals) {
    InUnit(s.ground) && InUnit(s.multi) && InUnit(s.phase) && InUnit(s.xspecies) &&
    InUnit(s.neighbor) && InUnit(s.feas) && InUnit(s.redund)
  }

  /** What a gap is scored with: the indices of the observations, the
      insertion-ordered keys of the accession index, the assay frequencies
      and all the gaps. */
  datatype Context = Context(ix: Indices, comboKeys: seq<Combo3>, freq: seq<string>, gaps: seq<Combo4>)

  /** The seven signals of a gap; every one lies in [0, 1]. */
  function SignalsOf(cx: Context, g: Combo4): (s: Signals)
    ensures Bounded(s)
  {
    var (org, tis, cond, assay) := g;
    Signals(
      GroundSignal(cx.ix, org, tis, cond),
      MultiOmicsSignal(cx.ix, org, tis, assay, cond),
      PhaseSignal(cx.ix, org, tis, cond),
      XSpeciesSignal(cx.ix, org, tis, assay, cond),
      NeighborSignal(cx.comboKeys, cx.ix.dsAny, tis, cond),
      FeasibilitySignal(cx.freq, assay),
      RedundancyPenalty(cx.gaps, tis, cond, assay))
  }

  const WGround := 1.8
  const WMulti := 1.5
  const WPhase := 1.2
  const WXSpecies := 1.0
  const WNeighbor := 0.8
  const WFeas := 0.6
  const WRedund := 0.7

  /** The weighted sum, the redundancy penalty subtracted. */
  function Score(s: Signals): real {
    WGround * s.ground + WMulti * s.multi + WPhase * s.phase + WXSpecies * s.xspecies +
    WNeighbor * s.neighbor + WFeas * s.feas - WRedund * s.redund
  }

  /** Signals in [0, 1] give a score between -0.7 and 6.9, and a score that
      grows with every positive signal. */
  lemma ScoreBounds(s: Signals)
    requires Bounded(s)
    ensures -0.7 <= Score(s) <= 6.9
    ensures Score(s) == 6.9 <==> s.ground == 1.0 && s.multi == 1.0 && s.phase == 1.0 && s.xspecies == 1.0 && s.neighbor == 1.0 && s.feas == 1.0 && s.redund == 0.0
  {
  }

  /** `round(score, 2)`: to two decimals, a half rounded up. */
  function Round2(x: real): real {
    ((x * 100.0 + 0.5).Floor as real) / 100.0
  }

  /** Rounding moves a value by at most half a hundredth, keeps the order of
      any two values and leaves a two-decimal value as it is. */
  lemma Round2Props(x: real, y: real)
    ensures x - 0.005 < Round2(x) <= x + 0.005
    ensures x <= y ==> Round2(x) <= Round2(y)
    ensures (x * 100.0).Floor as real == x * 100.0 ==> Round2(x) == x
  {
    var a, b := (x * 100.0 + 0.5).Floor, (y * 100.0 + 0.5).Floor;
    if x <= y {
      assert a <= b by {
        assert a as real <= x * 100.0 + 0.5 <= y * 100.0 + 0.5 < b as real + 1.0;
      }
    }
    if (x * 100.0).Floor as real == x * 100.0 {
      assert a == (x * 100.0).Floor;
    }
  }

  /** Two distinct scores can round to the same value: 1.231 and 1.234 both
      give 1.23, so a stable sort on the rounded score keeps them in their
      original order even though the second is the larger. */
  lemma RoundingTies()
    ensures 1.231 < 1.234 && Round2(1.231) == Round2(1.234) == 1.23
  {
    assert (1.231 * 100.0 + 0.5).Floor == 123;
    assert (1.234 * 100.0 + 0.5).Floor == 123;
  }

  /** The six kinds of reason a gap is worth filling. */
  datatype ReasonType = GroundBase | MultiOmics | PhaseCritical | SpeciesTranslation | NeighborDensity | Feasibility

  /** The `type` string each kind of reason carries. */
  function TypeName(t: ReasonType): string {
    match t
    case GroundBase => "GroundBase"
    case MultiOmics => "MultiOmics"
    case PhaseCritical => "PhaseCritical"
    case SpeciesTranslation => "SpeciesTranslation"
    case NeighborDensity => "NeighborDensity"
    case Feasibility => "Feasibility"
  }

  /** The order in which the reasons are listed and compared. */
  const ReasonOrder: seq<ReasonType> :=
    [GroundBase, MultiOmics, PhaseCritical, SpeciesTranslation, NeighborDensity, Feasibility]

  /** The weight of each reason's signal in the score. */
  function Weight(t: ReasonType): real {
    match t
    case GroundBase => WGround
    case MultiOmics => WMulti
    case PhaseCritical => WPhase
    case SpeciesTranslation => WXSpecies
    case NeighborDensity => WNeighbor
    case Feasibility => WFeas
  }

  /** The signal each reason stands for. */
  function SignalFor(s: Signals, t: ReasonType): real {
    match t
    case GroundBase => s.ground
    case MultiOmics => s.multi
    case PhaseCritical => s.phase
    case SpeciesTranslation => s.xspecies
    case NeighborDensity => s.neighbor
    case Feasibility => s.feas
  }

  /** `contributions`: the weighted positive signals, named. */
  function Contributions(s: Signals): (cs: seq<(ReasonType, real)>)
    ensures |cs| == 6
    ensures forall i | 0 <= i < 6 :: cs[i].0 == ReasonOrder[i]
    ensures forall i | 0 <= i < 6 :: cs[i].1 == Weight(cs[i].0) * SignalFor(s, cs[i].0)
  {
    var cs :=
      [(GroundBase, WGround * s.ground),
       (MultiOmics, WMulti * s.multi),
       (PhaseCritical, WPhase * s.phase),
       (SpeciesTranslation, WXSpecies * s.xspecies),
       (NeighborDensity, WNeighbor * s.neighbor),
       (Feasibility, WFeas * s.feas)];
    cs
  }

  /** Python's `max(cs, key=...)`: scanning from `k`, the position of the
      first largest value, where `best` is the first largest before `k`. */
  function FirstMaxFrom(cs: seq<(ReasonType, real)>, best: nat, k: nat): (i: nat)
    requires best < k <= |cs|
    requires forall j | 0 <= j < k :: cs[j].1 <= cs[best].1
    requires forall j | 0 <= j < best :: cs[j].1 < cs[best].1
    ensures i < |cs|
    ensures forall j | 0 <= j < |cs| :: cs[j].1 <= cs[i].1
    ensures forall j | 0 <= j < i :: cs[j].1 < cs[i].1
    decreases |cs| - k
  {
    if k == |cs| then best
    else if cs[k].1 > cs[best].1 then FirstMaxFrom(cs, k, k + 1)
    else FirstMaxFrom(cs, best, k + 1)
  }

  function FirstMax(cs: seq<(ReasonType, real)>): (i: nat)
    requires cs != []
    ensures i < |cs|
    ensures forall j | 0 <= j < |cs| :: cs[j].1 <= cs[i].1
    ensures forall j | 0 <= j < i :: cs[j].1 < cs[i].1
  {
    FirstMaxFrom(cs, 0, 1)
  }

  /** `MAIN_TEXT[type]`: every main reason type has a text, so the
      `"Oportunidad prioritaria."` default is never used. */
  function MainText(t: ReasonType): string {
    match t
    case GroundBase => "Fuerte base en tierra y falta en vuelo."
    case MultiOmics => "Completar paquete multi-ómics."
    case PhaseCritical => "Falta fase crítica de vuelo."
    case SpeciesTranslation => "Oportunidad de translación entre especies."
    case NeighborDensity => "Alta actividad alrededor; buena base logística."
    case Feasibility => "Assay estándar y factible."
  }

  /** The type of the largest contribution, the first one on ties. */
  function MainReason(s: Signals): (t: ReasonType)
    ensures exists i | 0 <= i < 6 :: (
      && Contributions(s)[i].0 == t
      && (forall j | 0 <= j < 6 :: Contributions(s)[j].1 <= Contributions(s)[i].1)
      && (forall j | 0 <= j < i :: Contributions(s)[j].1 < Contributions(s)[i].1))
  {
    Contributions(s)[FirstMax(Contributions(s))].0
  }

  /** The detailed reasons: the signals that reach 0.6 (0.7 for
      feasibility), in the fixed order. */
  function ReasonTypes(s: Signals): (r: seq<ReasonType>)
    ensures GroundBase in r <==> s.ground >= 0.6
    ensures MultiOmics in r <==> s.multi >= 0.6
    ensures PhaseCritical in r <==> s.phase >= 0.6
    ensures SpeciesTranslation in r <==> s.xspecies >= 0.6
    ensures NeighborDensity in r <==> s.neighbor >= 0.6
    ensures Feasibility in r <==> s.feas >= 0.7
    ensures |r| <= 6
  {
    DataReasons(s) + ContextReasons(s)
  }

  /** The first three reasons: ground base, multi-omics, flight phase. */
  function DataReasons(s: Signals): (r: seq<ReasonType>)
    ensures GroundBase in r <==> s.ground >= 0.6
    ensures MultiOmics in r <==> s.multi >= 0.6
    ensures PhaseCritical in r <==> s.phase >= 0.6
    ensures SpeciesTranslation !in r && NeighborDensity !in r && Feasibility !in r
    ensures |r| <= 3
  {
    (if s.ground >= 0.6 then [GroundBase] else []) +
    (if s.multi >= 0.6 then [MultiOmics] else []) +
    (if s.phase >= 0.6 then [PhaseCritical] else [])
  }

  /** The last three reasons: species translation, neighbour density,
      feasibility. */
  function ContextReasons(s: Signals): (r: seq<ReasonType>)
    ensures SpeciesTranslation in r <==> s.xspecies >= 0.6
    ensures NeighborDensity in r <==> s.neighbor >= 0.6
    ensures Feasibility in r <==> s.feas >= 0.7
    ensures GroundBase !in r && MultiOmics !in r && PhaseCritical !in r
    ensures |r| <= 3
  {
    (if s.xspecies >= 0.6 then [SpeciesTranslation] else []) +
    (if s.neighbor >= 0.6 then [NeighborDensity] else []) +
    (if s.feas >= 0.7 then [Feasibility] else [])
  }

  datatype Highlight = Highlight(gap: Combo4, score: real, reason: string, reasons: seq<ReasonType>)

  function HighlightOf(cx: Context, g: Combo4): (h: Highlight)
    ensures h.gap == g && -0.7 <= h.score <= 6.9
    ensures Score(SignalsOf(cx, g)) - 0.005 < h.score <= Score(SignalsOf(cx, g)) + 0.005
  {
    var s := SignalsOf(cx, g);
    ScoreBounds(s);
    Round2Props(Score(s), 6.9);
    Round2Props(-0.7, Score(s));
    Highlight(g, Round2(Score(s)), MainText(MainReason(s)), ReasonTypes(s))
  }

  /** The highlight of a gap, its neighbour signal already computed. */
  function HighlightWith(cx: Context, g: Combo4, neighbor: real): (h: Highlight)
    requires neighbor == NeighborSignal(cx.comboKeys, cx.ix.dsAny, g.1, g.2)
    ensures h == HighlightOf(cx, g)
  {
    var (org, tis, cond, assay) := g;
    var s := Signals(
      GroundSignal(cx.ix, org, tis, cond),
      MultiOmicsSignal(cx.ix, org, tis, assay, cond),
      PhaseSignal(cx.ix, org, tis, cond),
      XSpeciesSignal(cx.ix, org, tis, assay, cond),
      neighbor,
      FeasibilitySignal(cx.freq, assay),
      RedundancyPenalty(cx.gaps, tis, cond, assay));
    Highlight(g, Round2(Score(s)), MainText(MainReason(s)), ReasonTypes(s))
  }

  /** The highlight loop: one highlight per gap, in gap order; the
      neighbour signal is computed by its own loop. */
  method Highlights(cx: Context) returns (hs: seq<Highlight>)
    ensures hs == Map(cx.gaps, (g: Combo4) => HighlightOf(cx, g))
  {
    ghost var f := (g: Combo4) => HighlightOf(cx, g);
    hs := [];
    for i := 0 to |cx.gaps|
      invariant hs == MapPrefix(cx.gaps, f, i)
    {
      var g := cx.gaps[i];
      var neighbor := NeighborDensityOf(cx.comboKeys, cx.ix.dsAny, g.1, g.2);
      hs := hs + [HighlightWith(cx, g, neighbor)];
    }
    MapPrefixAll(cx.gaps, f);
  }

  /** Highlights sort by descending score. */
  function ByScore(h: Highlight): Key {
    [Num(-h.score)]
  }

  /** `highlights.sort(key=score, reverse=True)` then `[:top_n]` unless
      `top_n` is 0. */
  function Ranked(hs: seq<Highlight>, topN: nat): (r: seq<Highlight>)
    ensures |r| == if topN == 0 || |hs| <= topN then |hs| else topN
    ensures forall i, j :: 0 <= i < j < |r| ==> r[i].score >= r[j].score
    ensures forall h | h in r :: h in hs
  {
    var sorted := SortBy(hs, ByScore);
    forall h | h in sorted ensures h in hs {
      assert h in multiset(sorted);
    }
    forall i, j | 0 <= i < j < |sorted| ensures sorted[i].score >= sorted[j].score {
      assert KeyLe(ByScore(sorted[i]), ByScore(sorted[j]));
    }
    if topN == 0 then sorted else Take(sorted, topN)
  }

  /** The highlights kept are the best-scored: no highlight left out scores
      above one kept, and highlights with the same score keep gap order. */
  lemma RankedSpec(hs: seq<Highlight>, topN: nat, k: Key)
    ensures WithKey(SortBy(hs, ByScore), ByScore, k) == WithKey(hs, ByScore, k)
    ensures topN != 0 ==> Ranked(hs, topN) == SortBy(hs, ByScore)[..|Ranked(hs, topN)|]
    ensures forall i, j | 0 <= i < |Ranked(hs, topN)| <= j < |hs| ::
      SortBy(hs, ByScore)[j].score <= Ranked(hs, topN)[i].score
  {
    SortByStable(hs, ByScore, k);
    var sorted := SortBy(hs, ByScore);
    forall i, j | 0 <= i < |Ranked(hs, topN)| <= j < |hs| ensures sorted[j].score <= Ranked(hs, topN)[i].score {
      assert KeyLe(ByScore(sorted[i]), ByScore(sorted[j]));
    }
  }
}
