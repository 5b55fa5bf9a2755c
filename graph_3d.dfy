/** The view model behind the 3D knowledge-graph component: planet presets,
    the asset list, the community registry, the resolved links, the legend,
    the hover slots and HTML escaping of labels. The drawing itself (canvas
    textures, WebGL objects, the force engine) is not part of this model. */
module Graph3D {
  import opened Wrappers
  import opened Strings
  import opened Collections
  import opened Ordering
  import opened GraphData

  // ---------------------------------------------------------------------
  // Planet presets

  datatype Pattern = Bands | Spots | Swirl | Storm

  /** A colour, kept as the arguments it was made from: a literal hex code or
      the hue/saturation/lightness triple handed to the colour converter. */
  datatype Colour = Hex(code: string) | Hsl(hue: real, saturation: int, lightness: int)

  datatype PlanetPreset = PlanetPreset(
    name: string,
    icon: string,
    base: Colour,
    accent: Colour,
    ambient: Colour,
    pattern: Pattern,
    hasRing: bool,
    ringColor: Option<Colour>)

  /** The ringed-planet emoji used as the generated presets' icon and the
      legend's last fallback. */
  const PlanetIcon: string := "\U{1FA90}"

  /** The six hand-authored presets. */
  const PlanetPresets: seq<PlanetPreset> := [
    PlanetPreset("Aqua Atlas", "\U{1F30A}", Hex("#2563eb"), Hex("#38bdf8"), Hex("#1d4ed8"), Bands, false, None),
    PlanetPreset("Crimson Forge", "\U{1F525}", Hex("#ef4444"), Hex("#f97316"), Hex("#991b1b"), Spots, false, None),
    PlanetPreset("Verdant Bloom", "\U{1F33F}", Hex("#22c55e"), Hex("#34d399"), Hex("#166534"), Swirl, false, None),
    PlanetPreset("Solar Halo", "\U{1F31F}", Hex("#f59e0b"), Hex("#facc15"), Hex("#b45309"), Storm, true, Some(Hex("#fde68a"))),
    PlanetPreset("Aurora Drift", "\U{1F4AB}", Hex("#8b5cf6"), Hex("#c084fc"), Hex("#5b21b6"), Bands, false, None),
    PlanetPreset("Mist Opal", "\U{1FAB6}", Hex("#0ea5e9"), Hex("#67e8f9"), Hex("#075985"), Spots, true, Some(Hex("#bae6fd")))
  ]

  const ExtraPatterns: seq<Pattern> := [Bands, Spots, Swirl, Storm]

  /** JavaScript `x % m` for a non-negative `x`: the remainder in `[0, m)`. */
  function FMod(x: real, m: real): (r: real)
    requires 0.0 <= x && m > 0.0
    ensures 0.0 <= r < m
  {
    var q := x / m;
    var f := q.Floor as real;
    var r := x - m * f;
    assert f <= q < f + 1.0;
    assert x == m * q;
    var t := q - f;
    assert r == m * t;
    ScaleBelowOne(m, t);
    r
  }

  lemma ScaleBelowOne(m: real, t: real)
    requires m > 0.0 && 0.0 <= t < 1.0
    ensures 0.0 <= m * t < m
  {
    assert m * t < m * 1.0;
  }

  /** The golden-angle hue of the `index`-th generated preset. */
  function Hue(index: nat): (h: real)
    ensures 0.0 <= h < 360.0
  {
    FMod(index as real * 137.508, 360.0)
  }

  /** The preset for asset position `index` beyond the hand-authored ones. */
  function GeneratePreset(index: nat): (p: PlanetPreset)
    ensures p.pattern == ExtraPatterns[index % 4]
    ensures p.hasRing <==> index % 5 == 0
    ensures p.ringColor.Some? <==> p.hasRing
    ensures p.name == "Orbital-" + NatToString(index + 1)
    ensures p.icon == PlanetIcon
    ensures p.base.Hsl? && 0.0 <= p.base.hue < 360.0
  {
    var hue := Hue(index);
    var accentHue := FMod(hue + 25.0, 360.0);
    var ambientHue := FMod(hue + 330.0, 360.0);
    var hasRing := index % 5 == 0;
    PlanetPreset(
      "Orbital-" + NatToString(index + 1),
      PlanetIcon,
      Hsl(hue, 70, 45),
      Hsl(accentHue, 75, 60),
      Hsl(ambientHue, 65, 35),
      ExtraPatterns[index % |ExtraPatterns|],
      hasRing,
      if hasRing then Some(Hsl(FMod(hue + 180.0, 360.0), 50, 75)) else None)
  }

  /** The pattern repeats every four presets and the ring every five. */
  lemma GeneratePresetPeriodic(index: nat)
    ensures GeneratePreset(index + 4).pattern == GeneratePreset(index).pattern
    ensures GeneratePreset(index + 5).hasRing == GeneratePreset(index).hasRing
  {
    assert (index + 4) % 4 == index % 4;
    assert (index + 5) % 5 == index % 5;
  }

  /** Different positions get different generated names. */
  lemma GeneratedNamesDistinct(i: nat, j: nat)
    requires i != j
    ensures GeneratePreset(i).name != GeneratePreset(j).name
  {
    var a, b := NatToString(i + 1), NatToString(j + 1);
    if "Orbital-" + a == "Orbital-" + b {
      assert a == ("Orbital-" + a)[8..];
      assert b == ("Orbital-" + b)[8..];
      NatToStringInjective(i + 1, j + 1);
    }
  }

  // ---------------------------------------------------------------------
  // Planet assets

  /** What the component keeps of a drawn planet: the WebGL object factory is
      not modelled; `preview` is the canvas snapshot, when one was taken. */
  datatype PlanetAsset = PlanetAsset(name: string, icon: string, preview: Option<string>, accent: Colour)

  /** The asset drawn from `preset`; `preview` is what the texture painter
      returned for it. */
  function CreateAsset(preset: PlanetPreset, preview: Option<string>): (a: PlanetAsset)
    ensures a.name == preset.name && a.icon == preset.icon && a.accent == preset.accent
    ensures a.preview == preview
  {
    PlanetAsset(preset.name, preset.icon, preview, preset.accent)
  }

  function Max(a: int, b: int): int {
    if a < b then b else a
  }

  /** The starting list: the current one when it is non-empty, otherwise one
      asset per hand-authored preset. */
  function SeedAssets(current: seq<PlanetAsset>, paint: PlanetPreset -> Option<string>): (r: seq<PlanetAsset>)
    ensures |current| > 0 ==> r == current
    ensures |current| == 0 ==> |r| == |PlanetPresets|
    ensures |current| == 0 ==>
      forall i :: 0 <= i < |r| ==> r[i] == CreateAsset(PlanetPresets[i], paint(PlanetPresets[i]))
  {
    if |current| > 0 then current
    else seq(|PlanetPresets|, i requires 0 <= i < |PlanetPresets| => CreateAsset(PlanetPresets[i], paint(PlanetPresets[i])))
  }

  /** The asset generated for position `i`. */
  function GeneratedAsset(i: nat, paint: PlanetPreset -> Option<string>): PlanetAsset {
    CreateAsset(GeneratePreset(i), paint(GeneratePreset(i)))
  }

  /** The asset list after the growth effect, for `communities` distinct
      communities: the seed, padded with generated assets at positions
      `|seed| .. required-1`, where `required` is at least the preset count. */
  function Grown(current: seq<PlanetAsset>, communities: nat, paint: PlanetPreset -> Option<string>): (r: seq<PlanetAsset>)
    ensures var seed := SeedAssets(current, paint);
      |r| == Max(|seed|, Max(communities, |PlanetPresets|)) &&
      r[..|seed|] == seed &&
      forall i :: |seed| <= i < |r| ==> r[i] == GeneratedAsset(i, paint)
  {
    var seed := SeedAssets(current, paint);
    var required := Max(communities, |PlanetPresets|);
    if |seed| < required then
      seed + seq(required - |seed|, k requires 0 <= k < required - |seed| => GeneratedAsset(|seed| + k, paint))
    else seed
  }

  /** Running the effect again with the same community count changes nothing. */
  lemma GrownIdempotent(current: seq<PlanetAsset>, communities: nat, paint: PlanetPreset -> Option<string>)
    ensures Grown(Grown(current, communities, paint), communities, paint) == Grown(current, communities, paint)
  {
  }

  /** A non-empty list keeps every entry at its position. */
  lemma GrownKeepsEntries(current: seq<PlanetAsset>, communities: nat, paint: PlanetPreset -> Option<string>)
    requires |current| > 0
    ensures |Grown(current, communities, paint)| >= |current|
    ensures Grown(current, communities, paint)[..|current|] == current
  {
  }

  /** The grown list always has at least one asset per community. */
  lemma GrownCoversCommunities(current: seq<PlanetAsset>, communities: nat, paint: PlanetPreset -> Option<string>)
    ensures |Grown(current, communities, paint)| >= communities
    ensures |Grown(current, communities, paint)| >= |PlanetPresets|
  {
  }

  /** The growth effect's updater: copy, then push generated assets until the
      required length is reached. */
  method GrowAssets(current: seq<PlanetAsset>, communities: nat, paint: PlanetPreset -> Option<string>)
    returns (r: seq<PlanetAsset>)
    ensures r == Grown(current, communities, paint)
  {
    var required := Max(communities, |PlanetPresets|);
    var updated: seq<PlanetAsset>;
    if |current| > 0 {
      updated := current;
    } else {
      updated := [];
      for i := 0 to |PlanetPresets|
        invariant |updated| == i
        invariant forall k :: 0 <= k < i ==> updated[k] == CreateAsset(PlanetPresets[k], paint(PlanetPresets[k]))
      {
        updated := updated + [CreateAsset(PlanetPresets[i], paint(PlanetPresets[i]))];
      }
    }
    ghost var seed := updated;
    assert seed == SeedAssets(current, paint);
    if |updated| < required {
      var index := |updated|;
      while index < required
        invariant |seed| <= index <= required
        invariant |updated| == index
        invariant updated[..|seed|] == seed
        invariant forall k :: |seed| <= k < index ==> updated[k] == GeneratedAsset(k, paint)
      {
        updated := updated + [GeneratedAsset(index, paint)];
        index := index + 1;
      }
    }
    if |updated| == |current| {
      r := current;
    } else {
      r := updated;
    }
  }

  // ---------------------------------------------------------------------
  // Communities and the registry

  /** The community a node is drawn in: its community, or -1 when it has none. */
  function Group(n: GraphNode): int {
    n.community.GetOr(-1)
  }

  function Groups(nodes: seq<GraphNode>): (r: seq<int>)
    ensures |r| == |nodes| && forall i :: 0 <= i < |nodes| ==> r[i] == Group(nodes[i])
  {
    Map(nodes, Group)
  }

  /** `communityIds`: each community once, in the order nodes first show it. */
  method CommunityIds(nodes: seq<GraphNode>) returns (ids: seq<int>)
    ensures ids == Distinct(Groups(nodes))
  {
    var groups := Groups(nodes);
    var unique: set<int> := {};
    ids := [];
    for i := 0 to |nodes|
      invariant ids == Distinct(groups[..i])
      invariant forall g :: g in unique <==> g in ids
    {
      var g := Group(nodes[i]);
      assert groups[..i + 1] == groups[..i] + [g];
      DistinctSnoc(groups[..i], g);
      if g !in unique {
        ids := ids + [g];
        unique := unique + {g};
      }
    }
    assert groups[..|nodes|] == groups;
  }

  /** A registry entry: the asset drawn for the community, its node count and
      its 1-based label. */
  datatype Entry = Entry(assetIndex: nat, count: nat, labelNum: nat)

  /** The asset given to the `k`-th new community (from 0): `k`, clamped to
      the last asset, or 0 when there are no assets. */
  function AssignedIndex(k: nat, assets: nat): (r: nat)
    ensures assets > 0 ==> r < assets
    ensures assets == 0 ==> r == 0
    ensures k < assets ==> r == k
    ensures k >= assets > 0 ==> r == assets - 1
    ensures r <= k
  {
    if assets > 0 then (if k < assets - 1 then k else assets - 1) else 0
  }

  /** The component's node record: the graph node plus its drawing fields. */
  datatype VisualNode = VisualNode(
    node: GraphNode,
    name: string,
    group: int,
    displayGroup: nat,
    val: int,
    planetIndex: nat)

  /** The drawn node for `n`, which belongs to the `k`-th community (from 0). */
  function NodeView(n: GraphNode, k: nat, assets: nat): (v: VisualNode)
    ensures v.node == n && v.name == n.caption && v.group == Group(n)
    ensures v.displayGroup == k + 1 && v.planetIndex == AssignedIndex(k, assets)
    ensures v.val >= 1 && (n.degree.Some? && n.degree.value >= 1 ==> v.val == n.degree.value)
    ensures n.degree.None? || n.degree.value < 1 ==> v.val == 1
  {
    VisualNode(n, n.caption, Group(n), k + 1, Max(1, n.degree.GetOr(1)), AssignedIndex(k, assets))
  }

  /** The registry state after some nodes: `keys` in insertion order, the
      `i`-th with label `i + 1` and the clamped asset index for `i`, and each
      entry counting the nodes of its community. */
  ghost predicate RegistryOf(keys: seq<int>, reg: map<int, Entry>, groups: seq<int>, assets: nat) {
    keys == Distinct(groups) && RegDomain(keys, reg) && RegLabels(keys, reg, assets) && RegCounts(reg, groups)
  }

  /** The registry holds exactly the keys. */
  ghost predicate RegDomain(keys: seq<int>, reg: map<int, Entry>) {
    |reg| == |keys| && forall g | g in reg :: g in keys
  }

  /** The `i`-th key has label `i + 1` and the clamped asset index for `i`. */
  ghost predicate RegLabels(keys: seq<int>, reg: map<int, Entry>, assets: nat) {
    forall i :: 0 <= i < |keys| ==>
      keys[i] in reg && reg[keys[i]].labelNum == i + 1 && reg[keys[i]].assetIndex == AssignedIndex(i, assets)
  }

  /** Each entry counts the nodes of its community. */
  ghost predicate RegCounts(reg: map<int, Entry>, groups: seq<int>) {
    forall g | g in reg :: reg[g].count == Count(groups, g)
  }

  lemma IndexOfPrefix<T>(a: seq<T>, b: seq<T>, x: T)
    requires x in a
    ensures IndexOf(a + b, x) == IndexOf(a, x)
  {
    var i := IndexOf(a, x);
    assert (a + b)[i] == x;
  }

  /** The node pass of the memo: registers each node's community on first
      sight and counts it, and builds the drawn nodes. */
  method BuildRegistry(nodes: seq<GraphNode>, assets: nat)
    returns (keys: seq<int>, reg: map<int, Entry>, visual: seq<VisualNode>)
    ensures RegistryOf(keys, reg, Groups(nodes), assets)
    ensures |visual| == |nodes|
    ensures forall i :: 0 <= i < |nodes| ==> Group(nodes[i]) in keys
    ensures forall i :: 0 <= i < |nodes| ==>
      visual[i] == NodeView(nodes[i], IndexOf(keys, Group(nodes[i])), assets)
  {
    var groups := Groups(nodes);
    keys, reg, visual := [], map[], [];
    for i := 0 to |nodes|
      invariant RegistryOf(keys, reg, groups[..i], assets)
      invariant |visual| == i
      invariant Drawn(visual, nodes, keys, assets)
    {
      var g := Group(nodes[i]);
      ghost var keys0, reg0, visual0 := keys, reg, visual;
      keys, reg := Register(keys, reg, g, assets);
      RegisterStep(keys0, reg0, groups, i, assets, keys, reg);
      visual := visual + [NodeView(nodes[i], IndexOf(keys, g), assets)];
      DrawnStep(visual0, nodes, keys0, keys, assets);
    }
    assert groups[..|nodes|] == groups;
  }

  /** One node of the pass: a community seen for the first time is entered
      with the next label, the clamped asset index and a count of zero; then
      its count grows by one. */
  method Register(keys: seq<int>, reg: map<int, Entry>, g: int, assets: nat)
    returns (keys': seq<int>, reg': map<int, Entry>)
    ensures (keys', reg') == Registered(keys, reg, assets, g)
  {
    keys', reg' := keys, reg;
    if g !in reg' {
      reg' := reg'[g := Entry(AssignedIndex(|reg'|, assets), 0, |reg'| + 1)];
      keys' := keys' + [g];
    }
    reg' := reg'[g := reg'[g].(count := reg'[g].count + 1)];
    if g !in reg {
      assert reg' == reg[g := Entry(AssignedIndex(|reg|, assets), 1, |reg| + 1)];
    }
  }

  /** The first `|visual|` nodes are drawn, each with the position of its
      community among `keys`. */
  ghost predicate Drawn(visual: seq<VisualNode>, nodes: seq<GraphNode>, keys: seq<int>, assets: nat) {
    |visual| <= |nodes| &&
    (forall j :: 0 <= j < |visual| ==> Group(nodes[j]) in keys) &&
    (forall j :: 0 <= j < |visual| ==>
      visual[j] == NodeView(nodes[j], IndexOf(keys, Group(nodes[j])), assets))
  }

  lemma DrawnStep(visual: seq<VisualNode>, nodes: seq<GraphNode>, keys: seq<int>, keys': seq<int>, assets: nat)
    requires Drawn(visual, nodes, keys, assets) && |visual| < |nodes|
    requires Group(nodes[|visual|]) in keys'
    requires forall x | x in keys :: x in keys' && IndexOf(keys', x) == IndexOf(keys, x)
    ensures Drawn(visual + [NodeView(nodes[|visual|], IndexOf(keys', Group(nodes[|visual|])), assets)], nodes, keys', assets)
  {
  }

  /** One node registered: the registry invariant is kept, the community
      is among the keys, and no earlier key moves. */
  lemma RegisterStep(keys: seq<int>, reg: map<int, Entry>, groups: seq<int>, i: nat, assets: nat,
                      keys': seq<int>, reg': map<int, Entry>)
    requires i < |groups| && RegistryOf(keys, reg, groups[..i], assets)
    requires (keys', reg') == Registered(keys, reg, assets, groups[i])
    ensures RegistryOf(keys', reg', groups[..i + 1], assets)
    ensures groups[i] in keys'
    ensures forall x | x in keys :: x in keys' && IndexOf(keys', x) == IndexOf(keys, x)
  {
    var g := groups[i];
    assert groups[..i + 1] == groups[..i] + [g];
    if g in reg {
      RegisterSeen(keys, reg, groups[..i], assets, g);
    } else {
      RegisterNew(keys, reg, groups[..i], assets, g);
      forall x | x in keys ensures IndexOf(keys + [g], x) == IndexOf(keys, x) {
        IndexOfPrefix(keys, [g], x);
      }
    }
  }

  /** The keys and registry after registering `g`. */
  ghost function Registered(keys: seq<int>, reg: map<int, Entry>, assets: nat, g: int): (seq<int>, map<int, Entry>) {
    if g in reg then (keys, reg[g := reg[g].(count := reg[g].count + 1)])
    else (keys + [g], reg[g := Entry(AssignedIndex(|reg|, assets), 1, |reg| + 1)])
  }

  /** Registering a node of a community already seen: only its count grows. */
  lemma RegisterSeen(keys: seq<int>, reg: map<int, Entry>, groups: seq<int>, assets: nat, g: int)
    requires RegistryOf(keys, reg, groups, assets) && g in reg
    ensures RegistryOf(keys, reg[g := reg[g].(count := reg[g].count + 1)], groups + [g], assets)
  {
    var reg' := reg[g := reg[g].(count := reg[g].count + 1)];
    assert g in groups;
    DistinctSnoc(groups, g);
    assert reg'.Keys == reg.Keys;
    SeenLabels(keys, reg, assets, g, reg[g].count + 1);
    forall x | x in reg' ensures reg'[x].count == Count(groups + [g], x) {
      CountSnoc(groups, g, x);
    }
  }

  /** A new count for a registered community moves no label. */
  lemma SeenLabels(keys: seq<int>, reg: map<int, Entry>, assets: nat, g: int, n: nat)
    requires RegLabels(keys, reg, assets) && g in reg
    ensures RegLabels(keys, reg[g := reg[g].(count := n)], assets)
  {
  }

  /** Registering a node of a new community: it is appended with the next
      label, the clamped asset index and a count of one. */
  lemma RegisterNew(keys: seq<int>, reg: map<int, Entry>, groups: seq<int>, assets: nat, g: int)
    requires RegistryOf(keys, reg, groups, assets) && g !in reg
    ensures RegistryOf(keys + [g], reg[g := Entry(AssignedIndex(|keys|, assets), 1, |keys| + 1)], groups + [g], assets)
  {
    var reg' := reg[g := Entry(AssignedIndex(|keys|, assets), 1, |keys| + 1)];
    assert forall i :: 0 <= i < |keys| ==> keys[i] != g;
    assert g !in groups;
    DistinctSnoc(groups, g);
    NewDomain(keys, reg, g, reg'[g]);
    NewLabels(keys, reg, assets, g);
    forall x | x in reg' ensures reg'[x].count == Count(groups + [g], x) {
      CountSnoc(groups, g, x);
    }
  }

  /** A new community appended to the keys is entered in the registry. */
  lemma NewDomain(keys: seq<int>, reg: map<int, Entry>, g: int, e: Entry)
    requires RegDomain(keys, reg) && g !in reg
    ensures RegDomain(keys + [g], reg[g := e])
  {
    assert reg[g := e].Keys == reg.Keys + {g};
  }

  /** A new community appended with the next label keeps every earlier
      label. */
  lemma NewLabels(keys: seq<int>, reg: map<int, Entry>, assets: nat, g: int)
    requires RegLabels(keys, reg, assets) && g !in reg
    ensures RegLabels(keys + [g], reg[g := Entry(AssignedIndex(|keys|, assets), 1, |keys| + 1)], assets)
  {
    assert forall i :: 0 <= i < |keys| ==> (keys + [g])[i] == keys[i];
  }

  /** Every community's label is its first-seen position plus one, so the
      labels are exactly 1..N; every community has at least one node. */
  lemma RegistryLabels(keys: seq<int>, reg: map<int, Entry>, groups: seq<int>, assets: nat, i: nat)
    requires RegistryOf(keys, reg, groups, assets) && i < |keys|
    ensures keys[i] in reg && reg[keys[i]].labelNum == i + 1
    ensures reg[keys[i]].assetIndex == AssignedIndex(i, assets)
    ensures reg[keys[i]].count >= 1
  {
    assert keys[i] in groups;
    assert Count(groups, keys[i]) > 0;
    assert reg[keys[i]].count == Count(groups, keys[i]);
  }

  /** When there are at least as many assets as communities, each community
      has its own asset, at its label minus one. */
  lemma RegistryOwnAsset(keys: seq<int>, reg: map<int, Entry>, groups: seq<int>, assets: nat, g: int)
    requires RegistryOf(keys, reg, groups, assets) && g in reg
    requires assets >= |keys|
    ensures reg[g].assetIndex == reg[g].labelNum - 1
  {
    var i := IndexOf(keys, g);
    assert keys[i] == g;
  }

  /** The sum of the entries' counts over the registry. */
  function TotalCount(keys: seq<int>, reg: map<int, Entry>): nat
    requires forall i :: 0 <= i < |keys| ==> keys[i] in reg
    decreases |keys|
  {
    if keys == [] then 0 else reg[keys[0]].count + TotalCount(keys[1..], reg)
  }

  lemma {:induction false} TotalCountIsSumCounts(keys: seq<int>, reg: map<int, Entry>, groups: seq<int>, assets: nat, sub: seq<int>)
    requires RegistryOf(keys, reg, groups, assets)
    requires forall i :: 0 <= i < |sub| ==> sub[i] in keys
    ensures TotalCount(sub, reg) == SumCounts(sub, groups)
    decreases |sub|
  {
    if sub != [] {
      var k := IndexOf(keys, sub[0]);
      assert keys[k] in reg;
      TotalCountIsSumCounts(keys, reg, groups, assets, sub[1..]);
    }
  }

  /** The counts add up to the number of nodes. */
  lemma RegistryCountsTotal(keys: seq<int>, reg: map<int, Entry>, groups: seq<int>, assets: nat)
    requires RegistryOf(keys, reg, groups, assets)
    ensures TotalCount(keys, reg) == |groups|
  {
    TotalCountIsSumCounts(keys, reg, groups, assets, keys);
    SumCountsDistinct(groups);
  }

  // ---------------------------------------------------------------------
  // Links

  /** `new Map(nodes.map(n => [n.id, n]))`: each id maps to the last node
      carrying it. */
  function NodeIndex(nodes: seq<VisualNode>): (m: map<string, VisualNode>)
    ensures forall i :: 0 <= i < |nodes| ==> nodes[i].node.id in m
    ensures forall id | id in m :: m[id].node.id == id && m[id] in nodes
    decreases |nodes|
  {
    if nodes == [] then map[]
    else
      var last := nodes[|nodes| - 1];
      var m := NodeIndex(nodes[..|nodes| - 1]);
      assert forall i :: 0 <= i < |nodes| - 1 ==> nodes[i] == nodes[..|nodes| - 1][i];
      m[last.node.id := last]
  }

  /** The last node with a given id is the one the map keeps. */
  lemma {:induction false} NodeIndexLastWins(nodes: seq<VisualNode>, i: nat)
    requires i < |nodes|
    requires forall k :: i < k < |nodes| ==> nodes[k].node.id != nodes[i].node.id
    ensures NodeIndex(nodes)[nodes[i].node.id] == nodes[i]
    decreases |nodes|
  {
    if i < |nodes| - 1 {
      var pre := nodes[..|nodes| - 1];
      NodeIndexLastWins(pre, i);
    }
  }

  /** The component's link record. */
  datatype VisualEdge = VisualEdge(
    id: string,
    source: VisualNode,
    target: VisualNode,
    weight: Option<real>,
    description: Option<string>,
    value: real)

  /** An edge both of whose ends are known node ids. */
  function KnownIn(index: map<string, VisualNode>): GraphEdge -> bool {
    (e: GraphEdge) => e.source in index && e.target in index
  }

  function RealMax(a: real, b: real): real {
    if a < b then b else a
  }

  /** The drawn link of an edge whose ends are known. */
  function EdgeView(e: GraphEdge, index: map<string, VisualNode>): (v: VisualEdge)
    requires e.source in index && e.target in index
    ensures v.id == e.id && v.source == index[e.source] && v.target == index[e.target]
    ensures v.weight == e.weight && v.value >= 1.0
    ensures v.value == if e.weight.Some? && e.weight.value > 1.0 then e.weight.value else 1.0
    ensures v.description == (if e.description.Present? then Some(e.description.value) else None)
  {
    VisualEdge(e.id, index[e.source], index[e.target], e.weight,
      if e.description.Present? then Some(e.description.value) else None,
      RealMax(1.0, e.weight.GetOr(1.0)))
  }

  /** The specification of the edge loop: the known edges, in order, each
      drawn. */
  function Links(edges: seq<GraphEdge>, index: map<string, VisualNode>): (r: seq<VisualEdge>)
    ensures |r| <= |edges|
  {
    var kept := Filter(edges, KnownIn(index));
    seq(|kept|, i requires 0 <= i < |kept| => EdgeView(kept[i], index))
  }

  /** With no dangling edges every edge is drawn, in order. */
  lemma LinksNoDangling(edges: seq<GraphEdge>, index: map<string, VisualNode>)
    requires forall i :: 0 <= i < |edges| ==> edges[i].source in index && edges[i].target in index
    ensures |Links(edges, index)| == |edges|
    ensures forall i :: 0 <= i < |edges| ==> Links(edges, index)[i].id == edges[i].id
  {
    FilterAll(edges, KnownIn(index));
  }

  /** The edge loop of the memo: skip an edge with an unknown end, else push
      its drawn link. */
  method ResolveEdges(edges: seq<GraphEdge>, index: map<string, VisualNode>) returns (links: seq<VisualEdge>)
    ensures links == Links(edges, index)
  {
    links := [];
    for i := 0 to |edges|
      invariant links == Links(edges[..i], index)
    {
      var e := edges[i];
      assert edges[..i + 1] == edges[..i] + [e];
      FilterAppend(edges[..i], [e], KnownIn(index));
      if e.source in index && e.target in index {
        links := links + [EdgeView(e, index)];
      }
    }
    assert edges[..|edges|] == edges;
  }

  // ---------------------------------------------------------------------
  // Legend

  datatype LegendEntry = LegendEntry(
    group: int,
    labelNum: nat,
    planetName: string,
    icon: string,
    preview: Option<string>,
    accent: Colour,
    count: nat)

  /** The registry as `Array.from(registry.entries())`: pairs in insertion order. */
  datatype RegistryItem = RegistryItem(group: int, info: Entry)

  function Items(keys: seq<int>, reg: map<int, Entry>): (r: seq<RegistryItem>)
    requires forall i :: 0 <= i < |keys| ==> keys[i] in reg
    ensures |r| == |keys| && forall i :: 0 <= i < |r| ==> r[i] == RegistryItem(keys[i], reg[keys[i]])
  {
    seq(|keys|, i requires 0 <= i < |keys| => RegistryItem(keys[i], reg[keys[i]]))
  }

  /** The comparator `b.count - a.count`: descending count. */
  function ByCount(it: RegistryItem): Key {
    [Num(-(it.info.count as real))]
  }

  /** The registry label, which grows with insertion order. */
  function ByLabel(it: RegistryItem): Key {
    [Num(it.info.labelNum as real)]
  }

  /** The legend row of a registry item: the asset at `assetIndex` modulo the
      asset count, falling back field by field to the preset for the label. */
  function LegendOf(it: RegistryItem, assets: seq<PlanetAsset>): (e: LegendEntry)
    ensures e.group == it.group && e.labelNum == it.info.labelNum && e.count == it.info.count
    ensures |assets| > 0 ==> var a := assets[it.info.assetIndex % |assets|];
      e.planetName == a.name && e.icon == a.icon && e.preview == a.preview && e.accent == a.accent
    ensures |assets| == 0 && it.info.labelNum >= 1 ==>
      var p := PlanetPresets[(it.info.labelNum - 1) % |PlanetPresets|];
      e.planetName == p.name && e.icon == p.icon && e.preview == None && e.accent == p.accent
  {
    var asset := if |assets| > 0 then Some(assets[it.info.assetIndex % |assets|]) else None;
    var fallback := if it.info.labelNum >= 1 then Some(PlanetPresets[(it.info.labelNum - 1) % |PlanetPresets|]) else None;
    LegendEntry(
      it.group,
      it.info.labelNum,
      if asset.Some? then asset.value.name else if fallback.Some? then fallback.value.name else "",
      if asset.Some? then asset.value.icon else if fallback.Some? then fallback.value.icon else PlanetIcon,
      if asset.Some? then asset.value.preview else None,
      if asset.Some? then asset.value.accent else if fallback.Some? then fallback.value.accent else Hex("#38bdf8"),
      it.info.count)
  }

  /** The legend: one row per community, by descending count, ties in
      first-seen order. */
  function Legend(keys: seq<int>, reg: map<int, Entry>, groups: seq<int>, assets: seq<PlanetAsset>): (r: seq<LegendEntry>)
    requires RegistryOf(keys, reg, groups, |assets|)
    ensures |r| == |keys|
    ensures forall i :: 0 <= i < |r| ==> r[i].group in reg
    ensures forall i :: 0 <= i < |r| ==>
      r[i].count == reg[r[i].group].count && r[i].labelNum == reg[r[i].group].labelNum
    ensures forall g | g in keys :: HasRow(r, g)
    ensures forall i, j :: 0 <= i < j < |r| ==>
      r[i].count > r[j].count || (r[i].count == r[j].count && r[i].labelNum < r[j].labelNum)
  {
    var sorted := SortBy(Items(keys, reg), ByCount);
    LegendRowsFromRegistry(keys, reg, groups, assets);
    LegendCoversKeys(keys, reg, groups, assets);
    LegendSorted(keys, reg, groups, assets);
    Rows(sorted, assets)
  }

  /** Some legend row is for community `g`. */
  predicate HasRow(r: seq<LegendEntry>, g: int) {
    exists i :: 0 <= i < |r| && r[i].group == g
  }

  /** The legend rows of the sorted registry items. */
  function Rows(sorted: seq<RegistryItem>, assets: seq<PlanetAsset>): (r: seq<LegendEntry>)
    ensures |r| == |sorted| && forall i :: 0 <= i < |r| ==> r[i] == LegendOf(sorted[i], assets)
  {
    seq(|sorted|, i requires 0 <= i < |sorted| => LegendOf(sorted[i], assets))
  }

  /** Every legend row is a registry entry with its count and label. */
  lemma LegendRowsFromRegistry(keys: seq<int>, reg: map<int, Entry>, groups: seq<int>, assets: seq<PlanetAsset>)
    requires RegistryOf(keys, reg, groups, |assets|)
    ensures var r := Rows(SortBy(Items(keys, reg), ByCount), assets);
      |r| == |keys| &&
      forall i :: 0 <= i < |r| ==>
        r[i].group in reg && r[i].count == reg[r[i].group].count && r[i].labelNum == reg[r[i].group].labelNum
  {
    var items := Items(keys, reg);
    var sorted := SortBy(items, ByCount);
    var r := Rows(sorted, assets);
    forall i | 0 <= i < |r|
      ensures r[i].group in reg && r[i].count == reg[r[i].group].count && r[i].labelNum == reg[r[i].group].labelNum
    {
      assert sorted[i] in multiset(items);
    }
  }

  /** Every community of the registry has a legend row. */
  lemma LegendCoversKeys(keys: seq<int>, reg: map<int, Entry>, groups: seq<int>, assets: seq<PlanetAsset>)
    requires RegistryOf(keys, reg, groups, |assets|)
    ensures var r := Rows(SortBy(Items(keys, reg), ByCount), assets);
      forall g | g in keys :: HasRow(r, g)
  {
    var items := Items(keys, reg);
    var sorted := SortBy(items, ByCount);
    var r := Rows(sorted, assets);
    forall g | g in keys ensures HasRow(r, g) {
      var j := IndexOf(keys, g);
      assert items[j] in multiset(sorted);
      var i := PositionIn(sorted, items[j]);
      assert r[i].group == g;
    }
  }

  /** Legend rows run by descending count, ties by ascending label. */
  lemma LegendSorted(keys: seq<int>, reg: map<int, Entry>, groups: seq<int>, assets: seq<PlanetAsset>)
    requires RegistryOf(keys, reg, groups, |assets|)
    ensures var r := Rows(SortBy(Items(keys, reg), ByCount), assets);
      forall i, j :: 0 <= i < j < |r| ==>
        r[i].count > r[j].count || (r[i].count == r[j].count && r[i].labelNum < r[j].labelNum)
  {
    var items := Items(keys, reg);
    forall i | 0 <= i < |keys| ensures items[i].info.labelNum == i + 1 {
      RegistryLabels(keys, reg, groups, |assets|, i);
    }
    ItemsByCount(items);
  }

  /** Items labelled 1, 2, ... in order, sorted by descending count, run by
      descending count and then ascending label. */
  lemma ItemsByCount(items: seq<RegistryItem>)
    requires forall i :: 0 <= i < |items| ==> items[i].info.labelNum == i + 1
    ensures var sorted := SortBy(items, ByCount);
      forall i, j :: 0 <= i < j < |sorted| ==>
        sorted[i].info.count > sorted[j].info.count ||
        (sorted[i].info.count == sorted[j].info.count && sorted[i].info.labelNum < sorted[j].info.labelNum)
  {
    forall i, j | 0 <= i < j < |items| ensures KeyLt(ByLabel(items[i]), ByLabel(items[j])) {
      NumLt(items[i].info.labelNum as real, items[j].info.labelNum as real);
    }
    var sorted := SortBy(items, ByCount);
    SortByThen(items, ByCount, ByLabel, 1);
    forall i, j | 0 <= i < j < |sorted|
      ensures sorted[i].info.count > sorted[j].info.count ||
        (sorted[i].info.count == sorted[j].info.count && sorted[i].info.labelNum < sorted[j].info.labelNum)
    {
      assert KeyLe(ThenBy(ByCount, ByLabel)(sorted[i]), ThenBy(ByCount, ByLabel)(sorted[j]));
      LegendOrder(sorted[i], sorted[j]);
      DistinctPositions(sorted, items, i, j);
    }
  }

  lemma NumLt(a: real, b: real)
    requires a < b
    ensures KeyLt([Num(a)], [Num(b)])
  {
  }

  /** The combined key compares count downwards, then label upwards. */
  lemma LegendOrder(x: RegistryItem, y: RegistryItem)
    requires KeyLe(ThenBy(ByCount, ByLabel)(x), ThenBy(ByCount, ByLabel)(y))
    ensures x.info.count > y.info.count || (x.info.count == y.info.count && x.info.labelNum <= y.info.labelNum)
  {
    var kx, ky := ThenBy(ByCount, ByLabel)(x), ThenBy(ByCount, ByLabel)(y);
    assert kx == ByCount(x) + ByLabel(x) == [Num(-(x.info.count as real)), Num(x.info.labelNum as real)];
    assert ky == ByCount(y) + ByLabel(y) == [Num(-(y.info.count as real)), Num(y.info.labelNum as real)];
    assert !KeyLt(ky, kx);
    assert ky[1..] == [Num(y.info.labelNum as real)] && kx[1..] == [Num(x.info.labelNum as real)];
  }

  /** A permutation of a sequence without repeated labels has none either. */
  lemma DistinctPositions(sorted: seq<RegistryItem>, items: seq<RegistryItem>, i: nat, j: nat)
    requires multiset(sorted) == multiset(items)
    requires forall a, b :: 0 <= a < b < |items| ==> items[a].info.labelNum != items[b].info.labelNum
    requires i < j < |sorted|
    ensures sorted[i].info.labelNum != sorted[j].info.labelNum
  {
    if sorted[i].info.labelNum == sorted[j].info.labelNum {
      var a := PositionIn(items, sorted[i]);
      var b := PositionIn(items, sorted[j]);
      if a == b {
        TwoOccurrences(sorted, i, j);
        OccursOnce(items, a);
      }
    }
  }

  lemma PositionIn<T>(s: seq<T>, x: T) returns (a: nat)
    requires x in multiset(s)
    ensures a < |s| && s[a] == x
  {
    a :| 0 <= a < |s| && s[a] == x;
  }

  lemma OccursOnce(items: seq<RegistryItem>, a: nat)
    requires forall a, b :: 0 <= a < b < |items| ==> items[a].info.labelNum != items[b].info.labelNum
    requires a < |items|
    ensures multiset(items)[items[a]] == 1
  {
    assert NoDup(items);
    CountNoDup(items, items[a]);
  }

  /** The memo: the community registry, drawn nodes, resolved links and the
      legend, together. */
  method BuildView(graph: Graph, assets: seq<PlanetAsset>)
    returns (keys: seq<int>, reg: map<int, Entry>,
             nodes: seq<VisualNode>, links: seq<VisualEdge>, legend: seq<LegendEntry>)
    ensures RegistryOf(keys, reg, Groups(graph.nodes), |assets|)
    ensures |nodes| == |graph.nodes|
    ensures forall i :: 0 <= i < |nodes| ==> nodes[i].node == graph.nodes[i] && nodes[i].group == Group(graph.nodes[i])
    ensures forall i :: 0 <= i < |nodes| ==> Group(graph.nodes[i]) in keys
    ensures forall i :: 0 <= i < |nodes| ==>
      nodes[i] == NodeView(graph.nodes[i], IndexOf(keys, Group(graph.nodes[i])), |assets|)
    ensures links == Links(graph.edges, NodeIndex(nodes))
    ensures legend == Legend(keys, reg, Groups(graph.nodes), assets)
    ensures |legend| == |Distinct(Groups(graph.nodes))|
  {
    keys, reg, nodes := BuildRegistry(graph.nodes, |assets|);
    links := ResolveEdges(graph.edges, NodeIndex(nodes));
    legend := Legend(keys, reg, Groups(graph.nodes), assets);
  }

  // ---------------------------------------------------------------------
  // Hover state

  /** The two hover slots of the component and its asset list. */
  class Graph3DState {
    var hoveredNode: Option<VisualNode>
    var hoveredLink: Option<VisualEdge>
    var planetAssets: seq<PlanetAsset>

    /** At most one thing is highlighted at a time. */
    predicate Exclusive()
      reads this
    {
      !(hoveredNode.Some? && hoveredLink.Some?)
    }

    constructor()
      ensures hoveredNode == None && hoveredLink == None && planetAssets == []
      ensures Exclusive()
    {
      hoveredNode, hoveredLink, planetAssets := None, None, [];
    }

    /** `onNodeHover`: store the node (or null); a node clears the link. */
    method NodeHover(node: Option<VisualNode>)
      modifies this
      ensures hoveredNode == node
      ensures hoveredLink == if node.Some? then None else old(hoveredLink)
      ensures planetAssets == old(planetAssets)
      ensures Exclusive()
    {
      hoveredNode := node;
      if node.Some? {
        hoveredLink := None;
      }
    }

    /** `onLinkHover`: store the link (or null); a link clears the node. */
    method LinkHover(link: Option<VisualEdge>)
      modifies this
      ensures hoveredLink == link
      ensures hoveredNode == if link.Some? then None else old(hoveredNode)
      ensures planetAssets == old(planetAssets)
      ensures Exclusive()
    {
      hoveredLink := link;
      if link.Some? {
        hoveredNode := None;
      }
    }

    /** The effect that runs when the view data changes. */
    method ResetHover()
      modifies this
      ensures hoveredNode == None && hoveredLink == None
      ensures planetAssets == old(planetAssets)
      ensures Exclusive()
    {
      hoveredNode := None;
      hoveredLink := None;
    }

    /** The asset effect, run when the number of communities changes. */
    method RefreshAssets(communities: nat, paint: PlanetPreset -> Option<string>)
      modifies this
      ensures planetAssets == Grown(old(planetAssets), communities, paint)
      ensures hoveredNode == old(hoveredNode) && hoveredLink == old(hoveredLink)
    {
      planetAssets := GrowAssets(planetAssets, communities, paint);
    }
  }

  // ---------------------------------------------------------------------
  // HTML escaping

  /** The entity written for one character. */
  function EscapeChar(c: char): string {
    if c == '&' then "&amp;"
    else if c == '<' then "&lt;"
    else if c == '>' then "&gt;"
    else if c == '"' then "&quot;"
    else if c == '\'' then "&#39;"
    else [c]
  }

  /** Escaping character by character. */
  function EscapeChars(s: string): (r: string)
    ensures '<' !in r && '>' !in r && '"' !in r && '\'' !in r
    decreases |s|
  {
    if s == [] then [] else EscapeChar(s[0]) + EscapeChars(s[1..])
  }

  /** The five global replacements of `escapeHtml`, ampersand first. */
  function Passes(s: string): string {
    ReplaceChar(ReplaceChar(ReplaceChar(ReplaceChar(ReplaceChar(s,
      '&', "&amp;"), '<', "&lt;"), '>', "&gt;"), '"', "&quot;"), '\'', "&#39;")
  }

  /** `escapeHtml`: empty for null or empty input, else the five passes. */
  function EscapeHtml(value: Option<string>): (r: string)
    ensures value.None? || value == Some("") ==> r == ""
    ensures value.Some? ==> r == EscapeChars(value.value)
  {
    if value.None? || value.value == "" then ""
    else
      PassesAreEscape(value.value);
      Passes(value.value)
  }

  lemma PassesAppend(a: string, b: string)
    ensures Passes(a + b) == Passes(a) + Passes(b)
  {
    var a1, b1 := ReplaceChar(a, '&', "&amp;"), ReplaceChar(b, '&', "&amp;");
    ReplaceCharAppend(a, b, '&', "&amp;");
    var a2, b2 := ReplaceChar(a1, '<', "&lt;"), ReplaceChar(b1, '<', "&lt;");
    ReplaceCharAppend(a1, b1, '<', "&lt;");
    var a3, b3 := ReplaceChar(a2, '>', "&gt;"), ReplaceChar(b2, '>', "&gt;");
    ReplaceCharAppend(a2, b2, '>', "&gt;");
    var a4, b4 := ReplaceChar(a3, '"', "&quot;"), ReplaceChar(b3, '"', "&quot;");
    ReplaceCharAppend(a3, b3, '"', "&quot;");
    ReplaceCharAppend(a4, b4, '\'', "&#39;");
  }

  /** On one character the passes write its entity: the entities introduced
      by earlier passes hold none of the later passes' characters. */
  lemma PassesChar(c: char)
    ensures Passes([c]) == EscapeChar(c)
  {
    if c == '&' {
      PassesAmp();
    } else if c == '<' {
      PassesLt();
    } else if c == '>' {
      PassesGt();
    } else if c == '"' {
      PassesQuot();
    } else if c == '\'' {
      PassesApos();
    } else {
      PassesPlain(c);
    }
  }

  lemma PassesAmp()
    ensures Passes("&") == "&amp;"
  {
    ReplaceCharSingle('&', '&', "&amp;");
    AbsentFromLt("&amp;");
  }

  lemma PassesLt()
    ensures Passes("<") == "&lt;"
  {
    ReplaceCharSingle('<', '&', "&amp;");
    ReplaceCharSingle('<', '<', "&lt;");
    AbsentFromGt("&lt;");
  }

  /** A text without `<`, `>`, `"` and `'` passes the last four replacements
      unchanged. */
  lemma AbsentFromLt(e: string)
    requires '<' !in e && '>' !in e && '"' !in e && '\'' !in e
    ensures ReplaceChar(ReplaceChar(ReplaceChar(ReplaceChar(e,
      '<', "&lt;"), '>', "&gt;"), '"', "&quot;"), '\'', "&#39;") == e
  {
    ReplaceCharAbsent(e, '<', "&lt;");
    AbsentFromGt(e);
  }

  /** A text without `>`, `"` and `'` passes the last three replacements
      unchanged. */
  lemma AbsentFromGt(e: string)
    requires '>' !in e && '"' !in e && '\'' !in e
    ensures ReplaceChar(ReplaceChar(ReplaceChar(e,
      '>', "&gt;"), '"', "&quot;"), '\'', "&#39;") == e
  {
    ReplaceCharAbsent(e, '>', "&gt;");
    ReplaceCharAbsent(e, '"', "&quot;");
    ReplaceCharAbsent(e, '\'', "&#39;");
  }

  lemma PassesGt()
    ensures Passes(">") == "&gt;"
  {
    ReplaceCharSingle('>', '&', "&amp;");
    ReplaceCharSingle('>', '<', "&lt;");
    ReplaceCharSingle('>', '>', "&gt;");
    ReplaceCharAbsent("&gt;", '"', "&quot;");
    ReplaceCharAbsent("&gt;", '\'', "&#39;");
  }

  lemma PassesQuot()
    ensures Passes("\"") == "&quot;"
  {
    ReplaceCharSingle('"', '&', "&amp;");
    ReplaceCharSingle('"', '<', "&lt;");
    ReplaceCharSingle('"', '>', "&gt;");
    ReplaceCharSingle('"', '"', "&quot;");
    ReplaceCharAbsent("&quot;", '\'', "&#39;");
  }

  lemma PassesApos()
    ensures Passes("'") == "&#39;"
  {
    ReplaceCharSingle('\'', '&', "&amp;");
    ReplaceCharSingle('\'', '<', "&lt;");
    ReplaceCharSingle('\'', '>', "&gt;");
    ReplaceCharSingle('\'', '"', "&quot;");
    ReplaceCharSingle('\'', '\'', "&#39;");
  }

  lemma PassesPlain(c: char)
    requires c != '&' && c != '<' && c != '>' && c != '"' && c != '\''
    ensures Passes([c]) == [c]
  {
    ReplaceCharSingle(c, '&', "&amp;");
    ReplaceCharSingle(c, '<', "&lt;");
    ReplaceCharSingle(c, '>', "&gt;");
    ReplaceCharSingle(c, '"', "&quot;");
    ReplaceCharSingle(c, '\'', "&#39;");
  }

  /** The five passes escape each character exactly once. */
  lemma {:induction false} PassesAreEscape(s: string)
    ensures Passes(s) == EscapeChars(s)
    decreases |s|
  {
    if s != [] {
      PassesAreEscape(s[1..]);
      assert s == [s[0]] + s[1..];
      PassesAppend([s[0]], s[1..]);
      PassesChar(s[0]);
    }
  }

  /** Decoding the five entities, left to right. */
  function UnescapeHtml(s: string): string
    decreases |s|
  {
    if s == [] then []
    else if StartsWith(s, "&amp;") then "&" + UnescapeHtml(s[5..])
    else if StartsWith(s, "&lt;") then "<" + UnescapeHtml(s[4..])
    else if StartsWith(s, "&gt;") then ">" + UnescapeHtml(s[4..])
    else if StartsWith(s, "&quot;") then "\"" + UnescapeHtml(s[6..])
    else if StartsWith(s, "&#39;") then "'" + UnescapeHtml(s[5..])
    else [s[0]] + UnescapeHtml(s[1..])
  }

  /** Unescaping the escaped text gives the text back. */
  lemma {:induction false} UnescapeEscape(s: string)
    ensures UnescapeHtml(EscapeChars(s)) == s
    decreases |s|
  {
    if s != [] {
      UnescapeEscape(s[1..]);
      assert EscapeChars(s) == EscapeChar(s[0]) + EscapeChars(s[1..]);
      UnescapeEntity(s[0], EscapeChars(s[1..]));
      assert s == [s[0]] + s[1..];
    }
  }

  /** An entity at the front decodes to its character, and decoding goes on
      after it. */
  lemma UnescapeEntity(c: char, rest: string)
    ensures UnescapeHtml(EscapeChar(c) + rest) == [c] + UnescapeHtml(rest)
  {
    if c == '&' {
      UnescapeAmp(rest);
    } else if c == '<' {
      UnescapeLt(rest);
    } else if c == '>' {
      UnescapeGt(rest);
    } else if c == '"' {
      UnescapeQuot(rest);
    } else if c == '\'' {
      UnescapeApos(rest);
    } else {
      UnescapePlain(c, rest);
    }
  }

  lemma UnescapeAmp(rest: string)
    ensures UnescapeHtml("&amp;" + rest) == "&" + UnescapeHtml(rest)
  {
    var t := "&amp;" + rest;
    assert t[..5] == "&amp;" && t[5..] == rest;
  }

  /** A character that opens no entity decodes to itself. */
  lemma UnescapePlain(c: char, rest: string)
    requires c != '&'
    ensures UnescapeHtml([c] + rest) == [c] + UnescapeHtml(rest)
  {
    var t := [c] + rest;
    assert t[0] == c && t[1..] == rest;
    assert !StartsWith(t, "&amp;") && !StartsWith(t, "&lt;") && !StartsWith(t, "&gt;");
    assert !StartsWith(t, "&quot;") && !StartsWith(t, "&#39;");
  }

  lemma UnescapeLt(rest: string)
    ensures UnescapeHtml("&lt;" + rest) == "<" + UnescapeHtml(rest)
  {
    var t := "&lt;" + rest;
    assert t[1] == 'l';
    assert t[..4] == "&lt;" && t[4..] == rest;
  }

  lemma UnescapeGt(rest: string)
    ensures UnescapeHtml("&gt;" + rest) == ">" + UnescapeHtml(rest)
  {
    var t := "&gt;" + rest;
    assert t[1] == 'g';
    assert t[..4] == "&gt;" && t[4..] == rest;
  }

  lemma UnescapeQuot(rest: string)
    ensures UnescapeHtml("&quot;" + rest) == "\"" + UnescapeHtml(rest)
  {
    var t := "&quot;" + rest;
    assert t[..6] == "&quot;" && t[6..] == rest;
    assert t[..6][1] == 'q';
    assert !StartsWith(t, "&amp;") && !StartsWith(t, "&lt;") && !StartsWith(t, "&gt;");
  }

  lemma UnescapeApos(rest: string)
    ensures UnescapeHtml("&#39;" + rest) == "'" + UnescapeHtml(rest)
  {
    var t := "&#39;" + rest;
    assert t[..5] == "&#39;" && t[5..] == rest;
    assert t[..5][1] == '#';
    assert !StartsWith(t, "&amp;") && !StartsWith(t, "&lt;") && !StartsWith(t, "&gt;") && !StartsWith(t, "&quot;");
  }

  /** The round trip of `escapeHtml` on any non-empty text. */
  lemma EscapeHtmlRoundTrip(s: string)
    ensures UnescapeHtml(EscapeHtml(Some(s))) == s
  {
    UnescapeEscape(s);
  }
}
