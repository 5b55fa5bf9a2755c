# Space-biology explorer: a Dafny model

The system is a space-biology knowledge explorer. It has two halves:

- a Python API with a Gap Finder, an Assay Finder and a chat service ("graphbot");
- a Next.js front end with a 3D knowledge graph, a mission planner, the Gap Finder and Assay Finder pages, and a chat page.

The Gap Finder ranks organism/tissue/condition/assay combinations that the NASA OSDR assay catalogue does not cover yet. The Assay Finder groups the catalogue's assays by technology.

This project models the logic of both halves in Dafny 4.11 and proves what that logic promises. One module stands for each source file:

| module | source |
|---|---|
| `GraphData` (`graph_data.dfy`) | `nasa-space-biology/lib/graph-data.ts` |
| `Graph3D` (`graph_3d.dfy`) | `nasa-space-biology/components/graph-3d.tsx` |
| `GapFinder`, `GapIndex`, `GapScope`, `GapRank`, `GapSearch` | `api/gap_finder/router.py`: normalisers; per-observation indices; scope; signals and ranking; the endpoint |
| `AssayFinder` (`assay_finder.dfy`) | `api/assay_finder/router.py` |
| `MemoryStores` (`memory_store.dfy`) | `api/graphbot/store/memory_store.py` |
| `ChatModels` (`chat_models.dfy`) | `api/graphbot/chats/models.py`, `chatbot/chatbot_message.py`, `chatbot/dummy_bot.py` |
| `ChatServices` (`chat_service.dfy`) | `api/graphbot/chats/service.py` |
| `Factory` (`factory.dfy`) | `api/graphbot/factory.py` |
| `OpenAIFormatter` (`openai_formatter.dfy`) | `api/ai/prompt_formatters/openai_formatter.py` |
| `AppConfig` (`app_config.dfy`) | `api/app.py` (rate-limit key and CORS origins) |
| `MissionPlanner` (`mission_planner.dfy`) | `nasa-space-biology/components/mission-planner.tsx` |
| `GapFinderView` (`gap_finder_ui.dfy`) | `nasa-space-biology/components/gap-finder.tsx` |
| `AssayFinderView` (`assay_finder_ui.dfy`) | `nasa-space-biology/components/assay-finder.tsx` |
| `ChatInterfaceView` (`chat_interface.dfy`) | `nasa-space-biology/components/chat-interface.tsx` |
| `ApiContext` (`api_context.dfy`) | `nasa-space-biology/APIContext.tsx` |

The remaining modules are shared vocabulary:

- `Wrappers`: `Option` and `Result`.
- `Strings`: ASCII case, whitespace stripping, `in`/`includes`, split/join and replace.
- `Collections`: first-seen de-duplication, counting, filtering and mapping.
- `Ordering`: a stable insertion sort on composite keys, with its sortedness, permutation and stability lemmas.
- `JsonValues`: JavaScript values, truthiness and `??`.
- `UiCommon`: the messages and session opening shared by the chat pages.

Each module takes the form of its source:

- Pure logic is functions and lemmas.
- Loops become methods with invariants, proved against a specification function. Examples: the community registry pass, the asset growth effect, the CSV-row and card de-duplication loops, and the cookie scan.
- Objects and React components whose state the source updates become classes. Their methods are proved to produce the state that a specification function gives. Examples: the memory store, the chat service, the hover state, the page components, the stream timer and the loading counter.

I/O is modelled as follows:

- Anything the code awaits or calls outside itself is a parameter of the model. Examples: HTTP responses, `JSON.parse`, `decodeURIComponent`, the canvas painter, `Date.now` ids, the LLM's answer and the chatbot's reply.
- A call that can throw is given as an outcome datatype (success or failure) rather than performed.

## Model

| member | source | states |
|---|---|---|
| `GraphData.OrNull` | nasa-space-biology/lib/graph-data.ts:41 | `?? null`: a missing field reads as null, a present one is kept |
| `GraphData.DefaultNode` | nasa-space-biology/lib/graph-data.ts:33-38 | null community becomes -1, null level and degree 0, other values and id/label unchanged; the result has all three fields |
| `GraphData.DefaultEdge` | nasa-space-biology/lib/graph-data.ts:39-42 | an absent description becomes null, a present one is kept; id, source, target and weight unchanged |
| `GraphData.LoadGraph` | nasa-space-biology/lib/graph-data.ts:32-43 | both lists keep length and order, element i is the defaulted element i, and every node ends with non-null community, level and degree |
| `GraphData.LoadDefaultedIdentity` | nasa-space-biology/lib/graph-data.ts:32-43 | a graph that already has every field loads unchanged |
| `GraphData.LoadGraphIdempotent` | nasa-space-biology/lib/graph-data.ts:32-43 | defaulting twice is defaulting once |
| `Graph3D.FMod` | nasa-space-biology/components/graph-3d.tsx:117-119 | `%` on a non-negative real lies in `[0, m)` |
| `Graph3D.Hue` | nasa-space-biology/components/graph-3d.tsx:117 | the golden-angle hue lies in `[0, 360)` |
| `Graph3D.GeneratePreset` | nasa-space-biology/components/graph-3d.tsx:116-138 | pattern is `EXTRA_PATTERNS[index mod 4]`, a ring iff `index mod 5 == 0`, ring colour iff ring, name `Orbital-(index+1)`, planet icon, base hue in range |
| `Graph3D.GeneratePresetPeriodic` | nasa-space-biology/components/graph-3d.tsx:124-125 | the pattern repeats every 4 indices and the ring every 5 |
| `Graph3D.GeneratedNamesDistinct` | nasa-space-biology/components/graph-3d.tsx:128 | different indices give different generated names |
| `Graph3D.CreateAsset` | nasa-space-biology/components/graph-3d.tsx:253-297 | the asset carries the preset's name, icon and accent and the painter's preview |
| `Graph3D.SeedAssets` | nasa-space-biology/components/graph-3d.tsx:327-329 | a non-empty list is kept; an empty one becomes one asset per hand-authored preset, in order |
| `Graph3D.Grown` | nasa-space-biology/components/graph-3d.tsx:325-339 | the seed padded to `max(communities, presets)` with generated assets at positions `|seed|..required-1`, the seed itself kept as a prefix |
| `Graph3D.GrownIdempotent` | nasa-space-biology/components/graph-3d.tsx:325-339 | running the growth effect again with the same community count changes nothing |
| `Graph3D.GrownKeepsEntries` | nasa-space-biology/components/graph-3d.tsx:325-339 | existing assets keep their positions |
| `Graph3D.GrownCoversCommunities` | nasa-space-biology/components/graph-3d.tsx:326 | there are at least as many assets as communities and as presets |
| `Graph3D.GrowAssets` | nasa-space-biology/components/graph-3d.tsx:325-339 | the copy-and-push loop yields exactly the grown list |
| `Graph3D.Groups` | nasa-space-biology/components/graph-3d.tsx:345 | each node's group is `community ?? -1`, in node order |
| `Graph3D.CommunityIds` | nasa-space-biology/components/graph-3d.tsx:317-323 | the set-building loop yields each group once, in first-seen order |
| `Graph3D.AssignedIndex` | nasa-space-biology/components/graph-3d.tsx:347 | the k-th new community gets `min(k, assets-1)`, or 0 without assets: always in range, equal to k while k is in range, the last asset from then on |
| `Graph3D.NodeView` | nasa-space-biology/components/graph-3d.tsx:344-366 | the drawn node keeps the node, its name and group, gets label k+1 and the clamped asset, and `val = max(1, degree ?? 1)` |
| `Graph3D.BuildRegistry` | nasa-space-biology/components/graph-3d.tsx:342-366 | the node pass yields the first-seen registry of all groups and one drawn node per node, labelled by its community's position |
| `Graph3D.Register` | nasa-space-biology/components/graph-3d.tsx:346-356 | one node: a new community is entered with the next label, the clamped asset and count 0, then its count grows by one |
| `Graph3D.RegisterStep` | nasa-space-biology/components/graph-3d.tsx:346-356 | registering a node keeps the registry invariant and moves no earlier community |
| `Graph3D.RegisterSeen` | nasa-space-biology/components/graph-3d.tsx:355-356 | a node of a known community only raises that community's count |
| `Graph3D.RegisterNew` | nasa-space-biology/components/graph-3d.tsx:346-353 | a node of a new community appends it with label `size+1`, the clamped asset and count 1 |
| `Graph3D.RegistryLabels` | nasa-space-biology/components/graph-3d.tsx:346-356 | labels run 1..N in first-seen order, each community's asset is the clamped index of its position, and every count is at least 1 |
| `Graph3D.RegistryOwnAsset` | nasa-space-biology/components/graph-3d.tsx:347 | with at least as many assets as communities, each community's asset index is its label minus one |
| `Graph3D.RegistryCountsTotal` | nasa-space-biology/components/graph-3d.tsx:355-356 | the communities' counts add up to the number of nodes |
| `Graph3D.NodeIndex` | nasa-space-biology/components/graph-3d.tsx:368 | `new Map(nodes.map(...))` has every node's id, keyed to a node with that id |
| `Graph3D.NodeIndexLastWins` | nasa-space-biology/components/graph-3d.tsx:368 | a duplicated id maps to the last node carrying it |
| `Graph3D.EdgeView` | nasa-space-biology/components/graph-3d.tsx:374-383 | a drawn link keeps id and weight, points at the indexed end nodes, has `value = max(1, weight ?? 1)` and `description` or null |
| `Graph3D.Links` | nasa-space-biology/components/graph-3d.tsx:370-384 | the edges with both ends known, in order; never more than the edges |
| `Graph3D.LinksNoDangling` | nasa-space-biology/components/graph-3d.tsx:370-384 | with no dangling edge every edge is drawn, in order |
| `Graph3D.ResolveEdges` | nasa-space-biology/components/graph-3d.tsx:370-384 | the skip-or-push loop yields exactly those links |
| `Graph3D.Items` | nasa-space-biology/components/graph-3d.tsx:386 | `Array.from(registry.entries())` in insertion order |
| `Graph3D.LegendOf` | nasa-space-biology/components/graph-3d.tsx:388-399 | a legend row carries group, label and count; name, icon, preview and accent come from the asset at `assetIndex mod |assets|`, else from the preset for the label |
| `Graph3D.Legend` | nasa-space-biology/components/graph-3d.tsx:386-400 | one row per community, each with the registry's count and label, by descending count, ties by ascending (first-seen) label |
| `Graph3D.Rows` | nasa-space-biology/components/graph-3d.tsx:388-399 | each sorted item becomes its legend row |
| `Graph3D.LegendRowsFromRegistry` | nasa-space-biology/components/graph-3d.tsx:386-400 | every row is a registry community with its count and label |
| `Graph3D.LegendCoversKeys` | nasa-space-biology/components/graph-3d.tsx:386-400 | every community has a row |
| `Graph3D.LegendSorted` | nasa-space-biology/components/graph-3d.tsx:387 | the stable sort by descending count leaves ties in first-seen order |
| `Graph3D.LegendOrder` | nasa-space-biology/components/graph-3d.tsx:387 | the composite sort key compares count downwards, then label upwards |
| `Graph3D.BuildView` | nasa-space-biology/components/graph-3d.tsx:341-406 | the memo: the registry of communities in first-seen order (labels 1..N, clamped asset indices, counts), each drawn node the `NodeView` of its node at its community's position (label, planet index, `val`), exactly the resolved links, and the legend: one row per distinct community with its registry count and label, by descending count then label |
| `Graph3D.Graph3DState.constructor` | nasa-space-biology/components/graph-3d.tsx:309-315 | nothing hovered, no assets |
| `Graph3D.Graph3DState.NodeHover` | nasa-space-biology/components/graph-3d.tsx:520-525 | stores the node or null; a node clears the link; the two slots are never both set |
| `Graph3D.Graph3DState.LinkHover` | nasa-space-biology/components/graph-3d.tsx:526-531 | stores the link or null; a link clears the node; the two slots are never both set |
| `Graph3D.Graph3DState.ResetHover` | nasa-space-biology/components/graph-3d.tsx:408-411 | new view data clears both slots |
| `Graph3D.Graph3DState.RefreshAssets` | nasa-space-biology/components/graph-3d.tsx:325-339 | the asset state becomes the grown list; hover state untouched |
| `Graph3D.EscapeChars` | nasa-space-biology/components/graph-3d.tsx:301-306 | the escaped text holds no raw `<`, `>`, `"` or `'` |
| `Graph3D.EscapeHtml` | nasa-space-biology/components/graph-3d.tsx:299-307 | null or empty input gives `""`, other input its escaping |
| `Graph3D.PassesChar` | nasa-space-biology/components/graph-3d.tsx:301-306 | on one character the five passes, `&` first, write exactly its entity |
| `Graph3D.PassesAreEscape` | nasa-space-biology/components/graph-3d.tsx:301-306 | the five chained `replace` passes escape each character exactly once |
| `Graph3D.UnescapeEscape` | nasa-space-biology/components/graph-3d.tsx:301-306 | unescaping the escaped text gives it back |
| `Graph3D.UnescapeEntity` | nasa-space-biology/components/graph-3d.tsx:301-306 | an entity at the front decodes to its character |
| `Graph3D.EscapeHtmlRoundTrip` | nasa-space-biology/components/graph-3d.tsx:299-307 | unescaping `escapeHtml(s)` returns `s` for every non-empty text |
| `GapFinder.NormStr` | api/gap_finder/router.py:42-48 | None stays None; blank text and nan/none/null in any case give None; otherwise the stripped text, non-empty, with no space at either end and not a null word |
| `GapFinder.NormStrIdempotent` | api/gap_finder/router.py:42-48 | normalising twice is normalising once |
| `GapFinder.NormStrOfNormal` | api/gap_finder/router.py:42-48 | a stripped, non-empty, non-null text is its own normal form |
| `GapFinder.ConditionOf` | api/gap_finder/router.py:54-63 | the tests in the source's order, each under the failure of the ones before: "space" and "flight" give Spaceflight; "ground" or "analog" Ground/Analog; "pre", "post", then "in" (or "in-flight") with "flight" the phase label; otherwise the value itself; all on the lower-cased text |
| `GapFinder.NormCondition` | api/gap_finder/router.py:50-63 | None exactly when `_norm_str` gives None; otherwise the label chain applied to the normalised text |
| `GapFinder.ConditionLabelFixed` | api/gap_finder/router.py:50-63 | every label the normaliser writes normalises to itself (the test order never sends a label elsewhere) |
| `GapFinder.NormConditionIdempotent` | api/gap_finder/router.py:50-63 | `_norm_condition` of its own output gives the output back |
| `GapFinder.CoarseCondition` | api/gap_finder/router.py:121-130 | None or empty input gives None; otherwise, on the lower-cased text, space-and-flight or any of pre-flight, post-flight, in-flight gives Spaceflight; failing that ground, analog, vivarium or control gives Ground/Analog; failing both, None |
| `GapFinder.CoarseOfLabels` | api/gap_finder/router.py:121-130 | the three flight phases collapse to Spaceflight and Ground/Analog stays itself |
| `GapFinder.ObservedCoarse` | api/gap_finder/router.py:289 | always Spaceflight or Ground/Analog: `_coarse_condition` whenever that has a value, and otherwise Spaceflight exactly when the lower-cased text mentions "flight" |
| `GapFinder.JoinWordsSingleSpaced` | api/gap_finder/router.py:100 | words joined by one space make single-spaced text |
| `GapFinder.CapitalizedWords` | api/gap_finder/router.py:100 | one word per word of the text, each capitalised and still a word |
| `GapFinder.ParentTissueName` | api/gap_finder/router.py:87-100 | None exactly for None or empty input; otherwise single-spaced text, not starting with a lower-case letter, whose words are the words of the tissue's stem, one for one, each capitalised |
| `GapFinder.ParentTissueIgnoresCase` | api/gap_finder/router.py:91 | a text and its lower case give the same parent name |
| `GapFinder.WordsOfJoin` | api/gap_finder/router.py:100 | words joined by single spaces split back into the same words |
| `GapFinder.ParentTissueLastPlural` | api/gap_finder/router.py:96-97 | after a first lower-case word, a last word with an `s` appended gives the same parent name as the singular ("adrenal glands" and "adrenal gland"), unless the text holds "both sides" |
| `GapFinder.ParentTissuePlural` | api/gap_finder/router.py:96-97 | a lower-case word not ending in `s` and the same word with an `s` appended give the same parent name |
| `GapFinder.ParentTissueSeparator` | api/gap_finder/router.py:92-94 | a dash or an underscore between two lower-case words gives the same parent name as a space, unless the spaced text holds "both sides" |
| `GapFinder.ReplaceAllOneChar` | api/gap_finder/router.py:80 | `str.replace` with a one-character pattern replaces every occurrence of that character |
| `GapFinder.EscapedKeys` | api/gap_finder/router.py:80 | the tissue keys with every space written `%20`, so no space is left |
| `GapFinder.FirstPresent` | api/gap_finder/router.py:74-78 | None iff no key has a normalised value; otherwise the value found at some key whose predecessors have none |
| `GapFinder.PickTissue` | api/gap_finder/router.py:73-85 | a picked tissue is non-empty and already normalised |
| `GapFinder.PickTissueOrder` | api/gap_finder/router.py:73-85 | a plain key with a value wins; only when none has one are the `%20` spellings tried |
| `GapFinder.FirstPresentPrefix` | api/gap_finder/router.py:73-85 | a value among the first keys wins over every later key |
| `GapFinder.Values` | api/gap_finder/router.py:197-215 | the values a row reader yields: each comes from some row, and every row's value is collected |
| `GapFinder.FixedSeen` | api/gap_finder/router.py:214-215 | exactly the fixed conditions that were seen, without repeats, Spaceflight before Ground/Analog |
| `GapFinder.OthersSorted` | api/gap_finder/router.py:215-217 | exactly the other seen conditions, without repeats, strictly ascending |
| `GapFinder.ConditionsSorted` | api/gap_finder/router.py:214-224 | both defaults when nothing was seen; otherwise each seen condition once, fixed ones first in their order, the rest sorted |
| `GapFinder.ConditionsListed` | api/gap_finder/router.py:218-220 | the seen conditions satisfy the friendly order |
| `GapFinder.ConcatOrdered` | api/gap_finder/router.py:218-220 | fixed labels followed by sorted other labels keep no repeats and keep the others sorted |
| `GapFinder.CollectOptions` | api/gap_finder/router.py:192-214 | the row loop collects exactly the normalised organisms, conditions, technologies and tissues the rows have, in row order |
| `GapFinder.GapsOptions` | api/gap_finder/router.py:176-226 | the row loop returns the sorted organisms, assays and tissues seen, and the conditions in the friendly order |
| `GapIndex.CondNormOf` | api/gap_finder/router.py:288 | the normalised condition when the row has one, otherwise a non-empty placeholder ("Unknown") |
| `GapIndex.Observe` | api/gap_finder/router.py:286-298 | an observation exactly when organism, assay type and accession are present, carrying the organism, assay type and accession, the normalised assay name, the picked tissue, the condition (or "Unknown") and its coarse condition, which is Spaceflight or Ground/Analog |
| `GapIndex.UnknownIsGround` | api/gap_finder/router.py:288-289 | a row without a condition counts as Ground/Analog |
| `GapIndex.Observations` | api/gap_finder/router.py:285-299 | exactly the observations the rows yield, never more than the rows |
| `GapIndex.AssayTypes` | api/gap_finder/router.py:299 | one assay type per observation, in order (what the frequency counter counts) |
| `GapIndex.ObserveRows` | api/gap_finder/router.py:281-299 | the loop returns the observations, the tissues of every row (observed or not) and the assay frequencies before the condition filter |
| `GapIndex.Add` | api/gap_finder/router.py:328-333 | `index[k].add(v)`: k gets v, no key is lost and no other key appears |
| `GapIndex.GroupSpec` | api/gap_finder/router.py:317-333 | an index has a key iff that key was observed, holds a value under it iff that pair was observed, and lists each value once |
| `GapIndex.KeysInOrder` | api/gap_finder/router.py:338 | the keys in insertion order, without repeats |
| `GapIndex.KeysInOrderSpec` | api/gap_finder/router.py:338 | insertion order lists exactly the keys of the index |
| `GapIndex.BuildIndices` | api/gap_finder/router.py:326-333 | the indexing loop produces the six indices of all observations |
| `GapScope.ByCondition` | api/gap_finder/router.py:302-303 | with a fixed condition it keeps exactly the observations with that coarse condition; otherwise all of them |
| `GapScope.ScopeOf` | api/gap_finder/router.py:306-314 | given organisms, assays and tissues are the scope, else those observed; no tissue at all gives the single "no tissue"; a fixed condition is its own scope, else the observed coarse conditions |
| `GapScope.SomeOf` | api/gap_finder/router.py:309 | the tissues as present optional texts |
| `GapScope.TissueParents` | api/gap_finder/router.py:360 | exactly the parent names of the scoped tissues |
| `GapScope.RowOf` | api/gap_finder/router.py:345-355 | the row has the key and the dataset count; status is "covered" iff the count reaches the threshold, otherwise "weak" |
| `GapScope.CoverageRowsSpec` | api/gap_finder/router.py:336-355 | each coverage row is for an observed key in scope, counts its distinct accessions, and its status follows the threshold |
| `GapScope.CoveredKeysSpec` | api/gap_finder/router.py:336-357 | a key is covered iff it is in scope and observed |
| `GapScope.CoverageLoop` | api/gap_finder/router.py:336-357 | the loop over the coarse index yields exactly the coverage rows and covered keys |
| `GapScope.Pairs` | api/gap_finder/router.py:361-366 | `itertools.product` of two lists has `|a|*|b|` pairs |
| `GapScope.PairsMember` | api/gap_finder/router.py:361-366 | a pair is in the product iff each component is in its factor |
| `GapScope.Product` | api/gap_finder/router.py:361-366 | the four-way product has the product of the sizes |
| `GapScope.ProductMember` | api/gap_finder/router.py:361-366 | a combination is in the four-way product iff each part is in its factor |
| `GapScope.AxesOf` | api/gap_finder/router.py:362-365 | each axis lists its scope set exactly once; tissues sorted with no tissue as `""` |
| `GapScope.UniverseSpec` | api/gap_finder/router.py:360-366 | the universe is the product of the scopes, inside the scope, with as many combinations as the axis sizes multiplied |
| `GapScope.CollectGaps` | api/gap_finder/router.py:367-375 | the gap loop keeps exactly the universe's uncovered combinations, in order |
| `GapScope.GapsSpec` | api/gap_finder/router.py:359-375 | a gap is exactly a combination of the scopes that no kept observation covers; there are never more gaps than combinations |
| `GapScope.SortGaps` | api/gap_finder/router.py:570 | the same gaps, reordered by (organism, tissue or "", condition, assay) |
| `GapRank.GroundSignal` | api/gap_finder/router.py:378-383 | in [0,1]; 0 off spaceflight; for spaceflight 0 iff there is no ground dataset for the same organism and tissue, 1 iff there are at least 3 |
| `GapRank.MultiOmicsSignal` | api/gap_finder/router.py:385-395 | 0, 0.5 or 1; 0 iff no other assay type is present; 1 iff the gap adds proteomics next to RNA or RNA next to proteomics |
| `GapRank.PhasesOf` | api/gap_finder/router.py:398-401 | pre, in and post flags hold iff some recorded phase of that organism and tissue is of that kind |
| `GapRank.PhaseSignal` | api/gap_finder/router.py:397-408 | 0 off spaceflight; 1 iff in-flight is missing but pre or post exists; 0.5 iff in-flight exists but pre or post is missing |
| `GapRank.XSpeciesSignal` | api/gap_finder/router.py:410-421 | 0, 0.5 or 1; 0 iff no other organism has that tissue, condition and assay; 1 iff one of the others pairs mouse with human (either way round, in any case) |
| `GapRank.NeighborsSpec` | api/gap_finder/router.py:423-427 | the neighbourhood is exactly the accessions of the observations, of any organism, with that tissue and condition |
| `GapRank.NeighborDensityOf` | api/gap_finder/router.py:423-430 | the entry loop computes the neighbour signal |
| `GapRank.NeighborSignal` | api/gap_finder/router.py:428-430 | in [0,1], 0 iff the neighbourhood is empty |
| `GapRank.MaxCount` | api/gap_finder/router.py:435 | `max(counter.values())`: no element occurs more often, and some element reaches it |
| `GapRank.FeasibilitySignal` | api/gap_finder/router.py:432-439 | in [0,1]; 0 with no observations or when the assay was never observed; 1 iff the assay is among the most frequent |
| `GapRank.MaxCountBounds` | api/gap_finder/router.py:435-439 | with observations the maximum is positive and bounds every count, and the assay reaches it iff it is among the most frequent |
| `GapRank.RedundancyPenalty` | api/gap_finder/router.py:440-446 | in [0,1]; 0 iff at most one gap shares tissue, condition and assay; 1 iff at least five do |
| `GapRank.SignalsOf` | api/gap_finder/router.py:463-469 | all seven signals of a gap lie in [0,1] |
| `GapRank.ScoreBounds` | api/gap_finder/router.py:448-477 | with bounded signals the weighted score lies in [-0.7, 6.9], and reaches 6.9 iff every positive signal is 1 and the penalty 0 |
| `GapRank.Contributions` | api/gap_finder/router.py:536-543 | six pairs, in the order ground base, multi-omics, phase, species translation, neighbour density, feasibility, each carrying its weight times its signal |
| `GapRank.FirstMax` | api/gap_finder/router.py:544 | `max` with a key: a position of the largest value, and no earlier position reaches it (first on ties) |
| `GapRank.MainReason` | api/gap_finder/router.py:544-553 | the main reason is the type of the first largest contribution |
| `GapRank.ReasonTypes` | api/gap_finder/router.py:479-534 | a reason type is listed iff its signal reaches 0.6 (0.7 for feasibility); at most six |
| `GapRank.HighlightOf` | api/gap_finder/router.py:457-564 | the highlight is for its gap, with a score in [-0.7, 6.9] that is the weighted score rounded to two decimals (within half a hundredth of it) |
| `GapRank.Round2Props` | api/gap_finder/router.py:560 | rounding to two decimals moves a value by at most half a hundredth, keeps the order of any two values, and leaves a two-decimal value unchanged |
| `GapRank.RoundingTies` | api/gap_finder/router.py:560-566 | 1.231 and 1.234 both round to 1.23, so the stable sort on the stored score keeps the smaller one first when it came first |
| `GapRank.Highlights` | api/gap_finder/router.py:456-564 | the loop builds one highlight per gap, in gap order |
| `GapRank.Ranked` | api/gap_finder/router.py:566-567 | `top_n` highlights (all for 0 or when fewer), in non-increasing score, each one of the inputs |
| `GapRank.RankedSpec` | api/gap_finder/router.py:566-567 | the sort is stable (same-score highlights keep gap order), the kept ones are a prefix of it, and nothing left out scores above anything kept |
| `GapSearch.AsList` | api/gap_finder/router.py:163-165 | nothing for a missing, empty or empty-list field, a one-element list for a text, the list itself otherwise; never an empty list |
| `GapSearch.ConditionAnswer` | api/gap_finder/router.py:171 | a non-empty text condition is kept; a missing or empty one becomes the non-fixed "Ambas"; a non-empty list fails, since the fixed-condition test at line 252 cannot hash it |
| `GapSearch.FiltersOf` | api/gap_finder/router.py:167-173 | no filters exactly when the condition is a non-empty list; otherwise organisms and assays are given exactly when the answer held a non-empty value, and no tissue list is empty |
| `GapSearch.ConditionParam` | api/gap_finder/router.py:252-260 | a fixed condition sends its regular expression; any other asks for the condition to be present |
| `GapSearch.SearchParams` | api/gap_finder/router.py:243-268 | the format first, the organism and assay filters joined with `|` only when given, the condition parameter, then the six selectors |
| `GapSearch.AssembleSpec` | api/gap_finder/router.py:566-576 | with one highlight per gap, the answer counts its gaps, keeps `top_n` highlights best first, every highlight's gap is returned, and the gaps are a sorted permutation |
| `GapSearch.GapsSearch` | api/gap_finder/router.py:277-576 | the handler after the fetch computes exactly the specified search |
| `GapSearch.SearchSpec` | api/gap_finder/router.py:277-576 | no rows give an empty answer; otherwise `gaps_total` is the gap count, highlights are cut to `top_n` best first, each belongs to a returned gap, and gaps are sorted |
| `GapSearch.SearchGaps` | api/gap_finder/router.py:302-375 | a returned gap is exactly a scoped combination that no kept observation covers, and there are no more than the universe holds |
| `AssayFinder.TechLabel` | api/assay_finder/router.py:104-118 | a missing or empty label gives "Other / Unspecified"; the RNA-Seq alias becomes "RNA Sequencing"; any other label is stripped and kept |
| `AssayFinder.TechLabelCanonical` | api/assay_finder/router.py:104-118 | a non-empty canonical label is its own canonical form; a label of only whitespace becomes the empty label |
| `AssayFinder.AssayLink` | api/assay_finder/router.py:218-230 | a link iff dataset and assay name are truthy; it starts with the metadata base and accession and ends with the quoted assay name and fixed tail |
| `AssayFinder.DatasetLink` | api/assay_finder/router.py:232-235 | a link iff the dataset is truthy, `DATASET_BASE/<dataset>/?format=html` |
| `AssayFinder.Simplify` | api/assay_finder/router.py:41-52 | the simplified row keeps dataset, assay name, organism and condition, and canonicalises the technology |
| `AssayFinder.SeenOf` | api/assay_finder/router.py:124-149 | the `seen` dict's keys in insertion order, without repeats, and exactly its entries |
| `AssayFinder.SeenPerKey` | api/assay_finder/router.py:124-149 | a key has an entry iff some row has it, and the entry is the merge of that key's rows in order |
| `AssayFinder.FoldFillFirst` | api/assay_finder/router.py:142-149 | the "fill first non-null" merge gives the first truthy value, or the first value when none is truthy |
| `AssayFinder.AccOfSpec` | api/assay_finder/router.py:127-149 | a merged entry has the first row's key, exactly the non-empty conditions of its rows, and the first truthy organism, technology and links |
| `AssayFinder.AnyFlight` | api/assay_finder/router.py:155 | true iff some condition mentions space and flight or starts with "space" |
| `AssayFinder.AnyGround` | api/assay_finder/router.py:156 | true iff some condition mentions "ground" |
| `AssayFinder.FinishAll` | api/assay_finder/router.py:151-158 | one finished card per entry, in insertion order |
| `AssayFinder.DedupCards` | api/assay_finder/router.py:120-162 | the two loops and the sort produce exactly the deduplicated cards |
| `AssayFinder.DedupedKeys` | api/assay_finder/router.py:120-162 | one card per distinct (dataset, assay name) that occurs, sorted by technology, dataset and name, never more cards than rows |
| `AssayFinder.FinishedKeys` | api/assay_finder/router.py:151-158 | each finished card carries the key it was merged under |
| `AssayFinder.PermutedKeys` | api/assay_finder/router.py:161 | sorting keeps the cards' keys distinct and the same |
| `AssayFinder.KeyOccurs` | api/assay_finder/router.py:120-162 | a (dataset, assay name) key is merged iff some row has it |
| `AssayFinder.DedupedCard` | api/assay_finder/router.py:120-162 | each card: exactly the non-empty conditions of its rows, strictly sorted; flight and ground flags from them, both iff both; first truthy organism, technology and links |
| `AssayFinder.BucketsOf` | api/assay_finder/router.py:170-173 | bucket order lists each technology once, exactly the buckets present |
| `AssayFinder.BucketsSpec` | api/assay_finder/router.py:170-173 | a bucket exists iff a card has that technology, and holds exactly those cards, in order |
| `AssayFinder.BucketOrder` | api/assay_finder/router.py:170-173 | the bucket order lists exactly the technologies that occur |
| `AssayFinder.Shown` | api/assay_finder/router.py:187-189 | only the conditions change: those not "not applicable" are kept when asked; flags are not recomputed |
| `AssayFinder.View` | api/assay_finder/router.py:192 | the first `limit` items (all for 0 or when fewer) |
| `AssayFinder.TechPriorityUnknown` | api/assay_finder/router.py:201-211 | an unlisted technology ranks after every listed one but before "Other / Unspecified" |
| `AssayFinder.GroupsOf` | api/assay_finder/router.py:182-198 | one group per bucket, in bucket order |
| `AssayFinder.HideNotApplicable` | api/assay_finder/router.py:187-189 | the overwrite loop shows each ranked card without "not applicable" conditions |
| `AssayFinder.BucketCards` | api/assay_finder/router.py:169-173 | the bucket loop yields exactly the specified buckets: technologies in first-seen order, each with its cards in order |
| `AssayFinder.BuildGroup` | api/assay_finder/router.py:183-198 | one technology's group: its cards ranked, shown without "not applicable" conditions when asked, cut to the limit, counted before the cut |
| `AssayFinder.GroupByTechnology` | api/assay_finder/router.py:164-214 | the bucket, rank, hide, cut and sort steps produce exactly the specified groups |
| `AssayFinder.GroupsOfTechnologies` | api/assay_finder/router.py:194-198 | the groups' technologies are the bucket order |
| `AssayFinder.GroupedTechnologies` | api/assay_finder/router.py:164-214 | one group per technology that occurs, each once, ordered by interest then name |
| `AssayFinder.ShownKeeps` | api/assay_finder/router.py:186-189 | hiding conditions keeps a card's rank and technology |
| `AssayFinder.RankedBucket` | api/assay_finder/router.py:184-192 | a ranked, shown and cut bucket stays ranked and holds shown cards of that technology |
| `AssayFinder.GroupedGroup` | api/assay_finder/router.py:164-214 | a group's count is its technology's card count (before the cut); its assays are that bucket ranked (both, flight, ground, rest, then dataset and name), shown and cut to `limit_per_tech` |
| `AssayFinder.ConditionFilterSpec` | api/assay_finder/router.py:261-268 | each accepted condition word, stripped and lower-cased, selects exactly its filter; any other word selects none |
| `AssayFinder.BuildParams` | api/assay_finder/router.py:243-275 | the format first, then the given filters in order, then the three output selectors |
| `AssayFinder.AddIf` | api/assay_finder/router.py:253-268 | a filter is appended only when given |
| `AssayFinder.SearchAssays` | api/assay_finder/router.py:39-63 | cards (with their count) iff not grouping, else the groups, both built from the simplified, deduplicated rows |
| `MemoryStores.MemoryStore.constructor` | api/graphbot/store/memory_store.py:11-13 | the store starts empty |
| `MemoryStores.MemoryStore.Create` | api/graphbot/store/memory_store.py:15-21 | inserts iff the UUID is free and reports it; the size grows by one exactly then; a taken UUID leaves the store unchanged; every object stays filed under its own UUID |
| `MemoryStores.MemoryStore.Get` | api/graphbot/store/memory_store.py:23-25 | the stored object iff the UUID is present |
| `MemoryStores.MemoryStore.Require` | api/graphbot/store/memory_store.py:27-32 | the stored object, or `ObjectNotFoundError` naming the UUID |
| `MemoryStores.MemoryStore.Update` | api/graphbot/store/memory_store.py:34-43 | a UUID mismatch is an error that changes nothing; otherwise it reports whether the UUID was present and replaces the object only then |
| `MemoryStores.MemoryStore.Mutate` | api/graphbot/store/memory_store.py:45-50 | an unknown UUID is not found and changes nothing; otherwise exactly that entry becomes `fn` of it and is returned |
| `MemoryStores.MemoryStore.Delete` | api/graphbot/store/memory_store.py:52-54 | reports whether the UUID was present and removes exactly it |
| `MemoryStores.MemoryStore.Count` | api/graphbot/store/memory_store.py:56-58 | the number of stored UUIDs |
| `ChatModels.RoleValue` | api/graphbot/chats/models.py:7-9 | the enum's values "assistant" and "user", one per role |
| `ChatModels.ToChatbotMessages` | api/graphbot/chats/chatbot/chatbot_message.py:12-13 | one history entry per message, in order, with the role's value and the same content |
| `ChatModels.ToChatbotMessagesInjective` | api/graphbot/chats/chatbot/chatbot_message.py:12-13 | the history determines the messages |
| `ChatModels.RoleValueInjective` | api/graphbot/chats/models.py:7-9 | different roles have different values |
| `ChatModels.ToChatbotMessagesAppend` | api/graphbot/chats/chatbot/chatbot_message.py:12-13 | converting a longer conversation extends the converted history |
| `ChatModels.DummyReply` | api/graphbot/chats/chatbot/dummy_bot.py:7-8 | the user's text reversed, character by character |
| `ChatModels.DummyReplyInverse` | api/graphbot/chats/chatbot/dummy_bot.py:7-8 | reversing the reply gives the input back, and history and method do not matter |
| `ChatServices.Appended` | api/graphbot/chats/service.py:37 | the same chat with one more message at the end |
| `ChatServices.ChatService.constructor` | api/graphbot/chats/service.py:16-20 | keeps the store and chatbot; no chat is locked |
| `ChatServices.ChatService.CreateChat` | api/graphbot/chats/service.py:23-27 | a fresh UUID gets an empty chat, returned and stored; a taken one is an error that changes nothing |
| `ChatServices.ChatService.GetChat` | api/graphbot/chats/service.py:29-30 | the stored chat iff present |
| `ChatServices.ChatService.RequireChat` | api/graphbot/chats/service.py:32-33 | the stored chat, or not found for that UUID |
| `ChatServices.ChatService.AddMessage` | api/graphbot/chats/service.py:35-38 | appends one message to that chat only and returns it; an unknown chat is not found and nothing changes |
| `ChatServices.ChatService.DeleteChat` | api/graphbot/chats/service.py:40-41 | reports whether the chat existed and removes exactly it |
| `ChatServices.ChatService.CountMessages` | api/graphbot/chats/service.py:44-45 | the chat's number of messages, or not found |
| `ChatServices.ChatService.BeginReply` | api/graphbot/chats/service.py:48-55 | a busy chat is refused and nothing changes; an unknown chat is not found and the lock is released; otherwise the lock is taken and the history returned |
| `ChatServices.ChatService.FinishReply` | api/graphbot/chats/service.py:59-62 | appends the user's text then the answer and releases the lock; a chat deleted meanwhile gets neither message |
| `ChatServices.ChatService.ReplyToUser` | api/graphbot/chats/service.py:47-62 | busy and unknown chats fail and change nothing; otherwise the chat grows by exactly the user's text and the bot's answer to the earlier history, and the answer is returned; the lock set is as before |
| `ChatServices.TurnGrowsByTwo` | api/graphbot/chats/service.py:59-60 | a turn adds two messages, user then assistant, keeping the earlier ones, and the history grows the same way |
| `Factory.MakeStore` | api/graphbot/factory.py:7-12 | the memory store iff the setting is "memory" in any case, else an error naming it |
| `Factory.MakeChatbot` | api/graphbot/factory.py:14-22 | the echo bot iff the lower-cased setting is a substring of "dummy"; GraphRAG iff it is not but equals "graphrag"; else an error naming it |
| `Factory.MakeChatbotBounds` | api/graphbot/factory.py:14-22 | only settings of at most 5 characters give the echo bot, at most 8 any bot; "graphrag" in any case gives GraphRAG |
| `Factory.MakeChatbotPieces` | api/graphbot/factory.py:16 | any piece of "dummy", the empty setting included, gives the echo bot |
| `OpenAIFormatter.Format` | api/ai/prompt_formatters/openai_formatter.py:7-19 | the append steps produce the specified list |
| `OpenAIFormatter.FormattedShape` | api/ai/prompt_formatters/openai_formatter.py:7-19 | the system message when given, the history unchanged and in order, then the user message when given; empty when nothing is given |
| `OpenAIFormatter.FormattedEnds` | api/ai/prompt_formatters/openai_formatter.py:10-17 | with no system (user) message in the history, the list starts (ends) with one iff a system prompt (user text) is given |
| `AppConfig.KeyFunc` | api/app.py:29-31 | a non-empty header gives a key without commas or surrounding spaces; otherwise the client host |
| `AppConfig.KeyFuncSpec` | api/app.py:31 | the key is the stripped text before the first comma, or the whole header stripped |
| `AppConfig.KeyFuncFirstHop` | api/app.py:31 | a header listing the client and then proxies gives the client |
| `AppConfig.AllowOrigins` | api/app.py:57 | never empty, every origin non-empty and comma-free; every non-empty stripped comma piece of the setting is an origin, and when there is one every origin is such a piece; with none, `["*"]` |
| `AppConfig.AllowOriginsRoundTrip` | api/app.py:57 | stripped, non-empty origins joined by commas read back as the same list |
| `AppConfig.AllowOriginsDefault` | api/app.py:57 | a setting whose entries are all blank allows any origin (`["*"]`) |
| `JsonValues.Prop` | nasa-space-biology/components/mission-planner.tsx:188-195 | a property exists only on objects that have it, and it is that field |
| `JsonValues.Nullish` | nasa-space-biology/APIContext.tsx:10-14 | `a ?? b`: `a` unless it is undefined or null, then `b` |
| `UiCommon.MessageOf` | nasa-space-biology/components/chat-interface.tsx:99-102 | an `Error`'s message, else the caller's fallback |
| `UiCommon.EnsureChat` | nasa-space-biology/components/chat-interface.tsx:47-67 | a known session is reused; otherwise the `chat_uuid` the creation returned, exactly when it is non-empty, the missing-id error when not, or the failure the creation raised |
| `UiCommon.EnsureChatStable` | nasa-space-biology/components/chat-interface.tsx:47-58 | a session once obtained is returned again, without a new creation |
| `Ordering.SortBy` | api/gap_finder/router.py:570 | `list.sort` with a key: a permutation in non-decreasing key order |
| `Ordering.SortByStable` | api/gap_finder/router.py:566 | equal keys keep their input order |
| `Ordering.SortedSet` | api/gap_finder/router.py:220-223 | `sorted(set)`: each element once, strictly increasing |
| `Collections.Distinct` | nasa-space-biology/components/graph-3d.tsx:317-323 | each element of the input once, and nothing else; never longer than the input |
| `MissionPlanner.NormaliseObjective` | nasa-space-biology/components/mission-planner.tsx:190-194 | title from title, then name, then focus, then "Mission Objective"; detail from detail, then description, then focus, then empty; icon kept |
| `MissionPlanner.NormaliseObjectives` | nasa-space-biology/components/mission-planner.tsx:188-195 | nothing for a missing list, else one objective per entry, in order |
| `MissionPlanner.NormaliseObjectivesIdempotent` | nasa-space-biology/components/mission-planner.tsx:188-195 | normalised objectives normalise to themselves |
| `MissionPlanner.NormaliseRecommendation` | nasa-space-biology/components/mission-planner.tsx:199-204 | priority lower-cased (no upper-case letter left), "medium" when missing; title kept; headline falls back to the title; detail to `details`, then empty |
| `MissionPlanner.NormaliseRecommendations` | nasa-space-biology/components/mission-planner.tsx:197-205 | nothing for a missing list, else one recommendation per entry, in order |
| `MissionPlanner.NormaliseRecommendationsIdempotent` | nasa-space-biology/components/mission-planner.tsx:197-205 | normalised recommendations normalise to themselves |
| `MissionPlanner.NormaliseTimelineEntry` | nasa-space-biology/components/mission-planner.tsx:209-213 | phase kept; window from window, timeframe, duration; milestones, else activities, else non-empty notes as one milestone, else none |
| `MissionPlanner.NormaliseTimeline` | nasa-space-biology/components/mission-planner.tsx:207-214 | nothing for a missing list, else one phase per entry, in order |
| `MissionPlanner.NormaliseTimelineIdempotent` | nasa-space-biology/components/mission-planner.tsx:207-214 | a normalised timeline normalises to itself |
| `MissionPlanner.ListResource` | nasa-space-biology/components/mission-planner.tsx:219-226 | label defaults to "Resource", a missing or null value to the current amount, the rest copied |
| `MissionPlanner.TitleCase` | nasa-space-biology/components/mission-planner.tsx:233 | same length; every word-initial word character is upper-cased and nothing else changes |
| `MissionPlanner.ResourceLabel` | nasa-space-biology/components/mission-planner.tsx:233 | no underscore is left and the length is kept |
| `MissionPlanner.ResourceLabelSpec` | nasa-space-biology/components/mission-planner.tsx:233 | the label differs from the key only in case, and in spaces where the key had underscores |
| `MissionPlanner.RecordResource` | nasa-space-biology/components/mission-planner.tsx:229-251 | an object entry gets the derived label; its value is `value` when that is a text or number, else the numeric `current` (none if that is missing); status and unit only when texts, current and capacity only when numbers; anything else is the raw value under the raw name |
| `MissionPlanner.NormaliseResources` | nasa-space-biology/components/mission-planner.tsx:216-252 | nothing when missing; one entry per list item or per named value, in order |
| `MissionPlanner.RecordLabels` | nasa-space-biology/components/mission-planner.tsx:229-251 | object entries get underscore-free labels of the key's length; other entries keep the raw key and value |
| `MissionPlanner.SafeParsePlan` | nasa-space-biology/components/mission-planner.tsx:254-268 | falsy is null; a string is parsed (null when parsing throws); an object is kept; numbers and booleans are null |
| `MissionPlanner.SafeParsePlanSpec` | nasa-space-biology/components/mission-planner.tsx:254-268 | a non-text value parses to null or itself; an object result is stable under another parse |
| `MissionPlanner.AnswerNeverParsed` | nasa-space-biology/components/mission-planner.tsx:338-339 | (as written) a response holding the plan as text in `answer` is taken as the plan itself, unparsed |
| `MissionPlanner.PlanOf` | nasa-space-biology/components/mission-planner.tsx:338-339 | (corrected) a present `plan` is what is parsed |
| `MissionPlanner.PlanOfSpec` | nasa-space-biology/components/mission-planner.tsx:338-339 | (corrected) without a plan, a non-empty `answer` text is parsed; with a plan it agrees with the code as written |
| `MissionPlanner.SummaryOf` | nasa-space-biology/components/mission-planner.tsx:368-372 | a text becomes the overview alone, an object is shown as is, nothing is shown iff there is no summary or it is empty |
| `MissionPlanner.RiskTone` | nasa-space-biology/components/mission-planner.tsx:374 | no badge iff no risk level; high and low iff the lower-cased level names them; any other level is medium |
| `MissionPlanner.RiskToneIgnoresCase` | nasa-space-biology/components/mission-planner.tsx:374 | the badge does not depend on case |
| `MissionPlanner.SubmitBlank` | nasa-space-biology/components/mission-planner.tsx:316-319 | a blank brief only sets the error; no call is made |
| `MissionPlanner.SubmitSpec` | nasa-space-biology/components/mission-planner.tsx:314-361 | (corrected) afterwards nothing is loading; a failed session adds no message and shows its error; otherwise the trimmed brief is appended, and when a truthy plan is read the note too, the plan shown and the prompt cleared; else an error and plan and prompt unchanged |
| `MissionPlanner.SubmitNoSession` | nasa-space-biology/components/mission-planner.tsx:321-360 | a non-blank brief whose session cannot be opened ends in the submitted state: no message added, the session's error shown, loading over |
| `MissionPlanner.SubmitAnswered` | nasa-space-biology/components/mission-planner.tsx:321-360 | (corrected) a non-blank brief with an open session ends in the submitted state: the trimmed brief appended, the reply read, loading over |
| `MissionPlanner.MissionPlannerView.constructor` | nasa-space-biology/components/mission-planner.tsx:272-278 | no session, initialising, empty prompt, not loading, no error or plan, no messages |
| `MissionPlanner.MissionPlannerView.EnsureSession` | nasa-space-biology/components/mission-planner.tsx:281-300 | returns the session the shared `ensureChat` specification gives and moves to the opened state |
| `MissionPlanner.MissionPlannerView.ReadReply` | nasa-space-biology/components/mission-planner.tsx:338-357 | (corrected) the state becomes the answered state for the reply |
| `MissionPlanner.MissionPlannerView.SendBrief` | nasa-space-biology/components/mission-planner.tsx:326-360 | (corrected) the brief is appended as a user message, the reply turns the state into the answered state, and loading ends |
| `MissionPlanner.MissionPlannerView.Submit` | nasa-space-biology/components/mission-planner.tsx:314-361 | (corrected) the component's new state is the submitted state of the old one |
| `GapFinderView.EscapeCsv` | nasa-space-biology/components/gap-finder.tsx:178-184 | null is empty; a value without comma, quote or newline is unchanged; any other value is wrapped in quotes |
| `GapFinderView.UndoubleDoubled` | nasa-space-biology/components/gap-finder.tsx:181 | doubling every quote is undone by halving quote pairs |
| `GapFinderView.EscapeCsvRoundTrip` | nasa-space-biology/components/gap-finder.tsx:178-184 | unescaping an escaped value gives the value back (null as empty) |
| `GapFinderView.EscapedField` | nasa-space-biology/components/gap-finder.tsx:178-184 | a CSV reader that reads an escaped value from the start of a field ends up holding exactly that value |
| `GapFinderView.LineRun` | nasa-space-biology/components/gap-finder.tsx:262 | reading a comma-joined line of escaped values yields every value but the last as a field and holds the last |
| `GapFinderView.LinesRun` | nasa-space-biology/components/gap-finder.tsx:261-264 | reading newline-joined lines yields each earlier line as one record |
| `GapFinderView.ParseLines` | nasa-space-biology/components/gap-finder.tsx:261-264 | lines of escaped values read back as those values, line by line |
| `GapFinderView.HeaderLine` | nasa-space-biology/components/gap-finder.tsx:260 | the header names need no quoting, so the header is their CSV line |
| `GapFinderView.ReportReadsBack` | nasa-space-biology/components/gap-finder.tsx:257-264 | no report iff there are no gaps; otherwise it reads back as the header and, per gap in order, organism, tissue (empty when missing), condition and assay type |
| `GapFinderView.MaxScore` | nasa-space-biology/components/gap-finder.tsx:279 | the reduce result is at least the start and every score, and is the start or one of the scores |
| `GapFinderView.TopScore` | nasa-space-biology/components/gap-finder.tsx:277-280 | none iff there are no highlights; otherwise the largest score, which some highlight has |
| `GapFinderView.GapSegments` | nasa-space-biology/components/gap-finder.tsx:282-285 | the first twelve gaps (all when fewer), in order |
| `GapFinderView.UniqueTargets` | nasa-space-biology/components/gap-finder.tsx:287-291 | 0 without highlights, never more than the highlights |
| `GapFinderView.UniqueTargetsIgnoreCondition` | nasa-space-biology/components/gap-finder.tsx:289 | changing only the conditions does not change the count |
| `GapFinderView.TargetKeyInjective` | nasa-space-biology/components/gap-finder.tsx:289 | with names free of `|` and no tissue written "null", two highlights share a key iff organism, tissue and assay agree |
| `GapFinderView.GapFinderPage.constructor` | nasa-space-biology/components/gap-finder.tsx:188-192 | empty prompt, not loading, no error, no results, not a sample |
| `GapFinderView.GapFinderPage.Submit` | nasa-space-biology/components/gap-finder.tsx:215-250 | a blank prompt sets its error and clears the results without a search; otherwise the trimmed prompt is searched for and loading ends; a highlight list is shown, no response, no data and a failure each clear the results with their own message |
| `GapFinderView.GapFinderPage.UseSample` | nasa-space-biology/components/gap-finder.tsx:252-255 | fills in the sample prompt and clears the error, nothing else |
| `GapFinderView.GapFinderPage.HasGaps` | nasa-space-biology/components/gap-finder.tsx:293 | the gap list shows exactly when a report can be downloaded |
| `AssayFinderView.TotalAssays` | nasa-space-biology/components/assay-finder.tsx:167-170 | no results count as none |
| `AssayFinderView.SumSizesCounts` | nasa-space-biology/components/assay-finder.tsx:169 | the reduce total is the number of assays shown across all categories |
| `AssayFinderView.SumSizesAppend` | nasa-space-biology/components/assay-finder.tsx:169 | the total of two lists of categories is the sum of their totals |
| `AssayFinderView.SumSizesBound` | nasa-space-biology/components/assay-finder.tsx:169 | every category's assays count towards the total |
| `AssayFinderView.ConditionBadges` | nasa-space-biology/components/assay-finder.tsx:327-330 | one badge per condition, in order, with its text and tone |
| `AssayFinderView.ConditionToneIgnoresCase` | nasa-space-biology/components/assay-finder.tsx:329 | case does not change a badge's tone |
| `AssayFinderView.ConditionToneSpace` | nasa-space-biology/components/assay-finder.tsx:329 | a condition containing "space" in any case, anywhere, gets the space tone |
| `AssayFinderView.Present` | nasa-space-biology/components/assay-finder.tsx:336 | `filter(Boolean)`: exactly the present non-empty texts, never more than the input |
| `AssayFinderView.AvailabilityBadgesSpec` | nasa-space-biology/components/assay-finder.tsx:332-336 | one badge for each flag set and none for a flag not set, in the order flight, ground, both |
| `AssayFinderView.AssayFinderPage.constructor` | nasa-space-biology/components/assay-finder.tsx:161-165 | empty prompt, not loading, no error, no results, not a sample |
| `AssayFinderView.AssayFinderPage.Submit` | nasa-space-biology/components/assay-finder.tsx:172-208 | a blank prompt sets its error and clears the results without a search; otherwise the trimmed prompt is searched for and loading ends; a non-empty list is shown; no response, an empty or missing list and a failure each clear the results with their own message; shown results are never empty |
| `AssayFinderView.AssayFinderPage.UseSample` | nasa-space-biology/components/assay-finder.tsx:210-215 | the sample prompt and sample results are shown, the error cleared and the results marked as the sample |
| `AssayFinderView.AssayFinderPage.Total` | nasa-space-biology/components/assay-finder.tsx:167-170 | the total shown is the number of assays across the results, 0 without results |
| `ChatInterfaceView.StepOf` | nasa-space-biology/components/chat-interface.tsx:115 | at least one character per tick, a 120th of the answer once it has 120 characters |
| `ChatInterfaceView.Shown` | nasa-space-biology/components/chat-interface.tsx:118 | never more characters than the answer has |
| `ChatInterfaceView.ShownClosed` | nasa-space-biology/components/chat-interface.tsx:118 | after k ticks `min(total, k*step)` characters are shown |
| `ChatInterfaceView.StreamFinishes` | nasa-space-biology/components/chat-interface.tsx:115-136 | every answer is whole after at most 240 ticks, and is whole exactly when `k*step` reaches its length |
| `ChatInterfaceView.Showing` | nasa-space-biology/components/chat-interface.tsx:120-131 | the message with that id gets the content and streaming flag; every other message is unchanged; ids, roles and length are kept |
| `ChatInterfaceView.StreamTimer.constructor` | nasa-space-biology/components/chat-interface.tsx:109-116 | a timer for that message and text, nothing shown yet |
| `ChatInterfaceView.StreamTimer.Tick` | nasa-space-biology/components/chat-interface.tsx:117-136 | reveals `step` more characters, never past the end; the message shows that prefix, streaming until the end; done exactly at the end |
| `ChatInterfaceView.CleanedRoundTrip` | nasa-space-biology/components/chat-interface.tsx:97 | an answer whose newlines were written as `\n`, with no other backslash, gets its newlines back |
| `ChatInterfaceView.AnswerText` | nasa-space-biology/components/chat-interface.tsx:92-97 | a text to reveal exactly for a reply whose `answer` is a non-blank string |
| `ChatInterfaceView.SubmitIgnored` | nasa-space-biology/components/chat-interface.tsx:77 | a blank input, or one sent while loading, changes nothing |
| `ChatInterfaceView.SubmitSpec` | nasa-space-biology/components/chat-interface.tsx:75-106 | a sent message clears the input, ends not loading and adds the trimmed text then one assistant message, which streams iff a session opened and the answer is usable; the error is cleared exactly then, otherwise it is the assistant message's text |
| `ChatInterfaceView.OpenedFrame` | nasa-space-biology/components/chat-interface.tsx:47-67 | opening a session touches only the session, error and initialising flag, and a session that opens clears the error |
| `ChatInterfaceView.AnsweredSpec` | nasa-space-biology/components/chat-interface.tsx:92-102 | the reply adds one assistant message, streaming iff the answer is usable; otherwise the error is its text |
| `ChatInterfaceView.SubmitOpen` | nasa-space-biology/components/chat-interface.tsx:79-102 | how a sent message unfolds: the user message, the session, then the failure message or the reply |
| `ChatInterfaceView.ChatInterface.constructor` | nasa-space-biology/components/chat-interface.tsx:19-26 | no messages, empty input, not loading, initialising, no session, no error, no timers |
| `ChatInterfaceView.ChatInterface.EnsureSession` | nasa-space-biology/components/chat-interface.tsx:47-67 | returns the session the shared `ensureChat` specification gives, moves to the opened state, timers untouched |
| `ChatInterfaceView.ChatInterface.StreamAnswer` | nasa-space-biology/components/chat-interface.tsx:108-140 | appends an empty streaming assistant message and registers a new timer for the text; nothing else changes |
| `ChatInterfaceView.ChatInterface.ReadReply` | nasa-space-biology/components/chat-interface.tsx:92-102 | moves to the answered state; a new timer exactly for a usable answer, revealing the cleaned text |
| `ChatInterfaceView.ChatInterface.Submit` | nasa-space-biology/components/chat-interface.tsx:75-106 | the component's new state is the submitted state of the old one; a timer is added only with a stream |
| `ChatInterfaceView.ChatInterface.Tick` | nasa-space-biology/components/chat-interface.tsx:117-136 | the timer's message shows more of the answer; a finished timer is removed from the list; nothing else changes |
| `ChatInterfaceView.ChatInterface.Unmount` | nasa-space-biology/components/chat-interface.tsx:28-33 | every timer is cleared and the rest of the state is kept |
| `ApiContext.Decoded` | nasa-space-biology/APIContext.tsx:103 | a decoded value is the token; a decoding that throws is an error |
| `ApiContext.CookieTokenAsWritten` | nasa-space-biology/APIContext.tsx:97-107 | (as written) no document gives no token; otherwise the early-return loop gives the lookup that splits each entry on every `=` |
| `ApiContext.Pair` | nasa-space-biology/APIContext.tsx:101 | (corrected) no pair iff the entry has no `=`; otherwise a name without `=` and a value that rebuild the entry around its first `=` |
| `ApiContext.PairOf` | nasa-space-biology/APIContext.tsx:101 | (corrected) `name=value` splits back into that name and value whenever the name has no `=` |
| `ApiContext.CookieToken` | nasa-space-biology/APIContext.tsx:97-107 | (corrected) no document gives no token; otherwise the early-return loop gives the whole-value lookup |
| `ApiContext.FirstValue` | nasa-space-biology/APIContext.tsx:100-104 | the value of some pair with that name, or none when no pair has it |
| `ApiContext.LookupEntries` | nasa-space-biology/APIContext.tsx:99-106 | (corrected) over `name=value` pieces the lookup decodes the first matching value, else finds nothing |
| `ApiContext.CookieRoundTrip` | nasa-space-biology/APIContext.tsx:97-107 | (corrected) a cookie string joined from `name=value` entries reads back the first value for the name, decoded, and no token when no entry has it |
| `ApiContext.AsWrittenTruncates` | nasa-space-biology/APIContext.tsx:101-103 | (as written) `n=v1=v2` decodes only `v1`; the corrected lookup decodes `v1=v2` |
| `ApiContext.AsWrittenBareName` | nasa-space-biology/APIContext.tsx:101-103 | (as written) a bare `n` entry matches and decodes the text "undefined"; the corrected lookup finds no token |
| `ApiContext.ObtainToken` | nasa-space-biology/APIContext.tsx:88-95 | (corrected) no window gives no token; a non-empty stored token wins; otherwise the `oauth_token` cookie |
| `ApiContext.RequestConfig.constructor` | nasa-space-biology/APIContext.tsx:76 | a request configuration with the given headers |
| `ApiContext.Intercept` | nasa-space-biology/APIContext.tsx:75-86 | a non-empty token adds `Authorization: Bearer <token>` to the headers, created when missing, keeping the others; no token leaves them as they were; an undecodable token makes it throw |
| `ApiContext.Loaded` | nasa-space-biology/APIContext.tsx:112-116 | `true` counts one up, `false` one down, never below 0 |
| `ApiContext.ReplayBalanced` | nasa-space-biology/APIContext.tsx:112-116 | while no prefix of the calls drops more than it raised, the count is the raises minus the drops |
| `ApiContext.LoadCounter.constructor` | nasa-space-biology/APIContext.tsx:110 | the count starts at 0, so no loading screen |
| `ApiContext.LoadCounter.SetLoading` | nasa-space-biology/APIContext.tsx:112-116 | the count becomes `Loaded` of the old count |
| `ApiContext.LoadCounter.LoadingScreenShown` | nasa-space-biology/APIContext.tsx:118-123 | the loading screen shows iff the count is not 0 |
| `ApiContext.LoadCounter.Request` | nasa-space-biology/APIContext.tsx:125-149 | the count ends where it started; a success returns the response, an HTTP failure its error response, anything else is rethrown |
| `ApiContext.BaseUrl` | nasa-space-biology/APIContext.tsx:10-14 | the first defined of the three settings, else the deployed API URL |
| `ApiContext.EndpointMethods` | nasa-space-biology/APIContext.tsx:158-170 | the five base calls plus the extras, the extras winning on a shared name |
| `ApiContext.EndpointUrls` | nasa-space-biology/APIContext.tsx:163-168 | each base call not overridden uses the entity URL, with `/id` for item calls and parameters where taken |
| `ApiContext.MediaApiSpec` | nasa-space-biology/APIContext.tsx:191-194 | media has the five calls; update and delete only alert; item reads go to `/api/v3/media/<id>` |
| `ApiContext.ChatSend` | nasa-space-biology/APIContext.tsx:211-215 | a POST of the body to the messages URL under the chats URL |
| `ApiContext.AssaySearch` | nasa-space-biology/APIContext.tsx:207-209 | a GET relative to the client's base URL: `/assays/search?q=` followed by the encoded query |
| `ApiContext.AssaySearchDistinct` | nasa-space-biology/APIContext.tsx:207-209 | with an encoding that tells texts apart, two searches share a URL only for the same query |

## Left out

- `MissionPlanner.Answered` reads the reply with the corrected `PlanOf`, not with `PlanOfAsWritten` (nasa-space-biology/components/mission-planner.tsx:338-339): a reply whose data has no `plan` but an `answer` text is parsed from that text here, while the code as written takes the whole data object; see Findings. A reply that carries a non-null `plan` is read the same way by both (`PlanOfSpec`).
- `MissionPlanner.MissionPlannerView.ReadReply` inherits that correction from `Answered`.
- `MissionPlanner.MissionPlannerView.SendBrief` inherits that correction from `Answered`.
- `MissionPlanner.MissionPlannerView.Submit` inherits that correction from `Answered`.
- `MissionPlanner.SubmitSpec` inherits that correction from `Answered`.
- `MissionPlanner.SubmitAnswered` inherits that correction from `Answered`.
- `ApiContext.ObtainToken` reads the cookie with the corrected `CookieToken`, not with `CookieTokenAsWritten` (nasa-space-biology/APIContext.tsx:97-107): for `oauth_token=abc==` the code as written sends `Bearer abc` and the model `abc==`; for a bare `oauth_token` entry the code sends `Bearer undefined` and the model no header; see Findings.
- `AppConfig.AllowOrigins` states which entries appear, not their order; the order is stated for a setting written from a list of origins by `AllowOriginsRoundTrip`.
- `GapFinder.ParentTissueSeparator` holds for two lower-case words only: a dash or underscore at either end of the text is not a space, since the trailing `s` test runs before the final strip (`livers-` gives "Livers", `livers ` gives "Liver"), and "glands- both sides" is rewritten before dashes are.
- Floating point: Gap Finder scores and weights are exact reals here. The stored score is rounded to two decimals before the sort, as in the source, but with halves rounded up on exact reals; Python rounds the binary float, halves to even, so a score at a half hundredth may round the other way.
- The reason and evidence texts of a highlight and the long explanatory strings shown on the pages are left out. They are display text and carry no logic.
- Python `set` iteration order is not specified by the language. Every set is a first-seen, duplicate-free sequence here, and the source sorts each set before it is used.
- `applied_url` is left out of both the Gap Finder answer and the Assay Finder answer (api/assay_finder/router.py:37 and 58; the grouped answer does not carry it). It echoes the request URL built by the HTTP client, which is not part of this model.
- The HTTP calls to NASA OSDR, the GraphRAG service and the LLM are inputs. So is the prompt that maps a natural-language question to filters. The model starts from the rows, answers and filters they return.
- The JSON-extraction fallback in `_nl_to_filters` is left out. It recovers a JSON object from free model text, and the parsed answer is an input here.
- `_fetch_json_records` and `_fetch_assays` forward network and parsing errors. Their error handling is a given outcome, not modelled step by step.
- The coverage rows of `/gaps/search` are computed in the model, as in the source, even though the endpoint does not return them.
- Concurrency: the per-chat `asyncio` locks of the chat service are a set of chats busy replying. Interleavings of awaiting tasks are not modelled.
- `MemoryStores.MemoryStore.Mutate`: the source's callback changes the stored object in place. Here it is a function from the old chat to the new one, so aliasing between the caller and the store is not captured.
- `MemoryStores.MemoryStore`: the store is generic in the source and holds chats here, its only use.
- The in-place `list.sort` and `Array.prototype.sort` calls are a stable sort on sequences (`Ordering.SortBy`). Update in place is not captured.
- Case and whitespace handling covers ASCII only. Unicode case folding and Unicode whitespace are not modelled.
- `Strings.IsSpace` is the six common ASCII whitespace characters. Python's `strip()` and `split()` also treat the separators `\x1c`-`\x1f` as whitespace; the model does not.
- `GraphData.GraphNode` holds `community`, `level` and `degree` as whole numbers. graph-data.ts:8-10 accepts any JavaScript number, so a fractional degree (which `max(1, degree ?? 1)` would keep) is not modelled.
- `json.loads(messages_json)` in the OpenAI formatter is an input: the formatter receives the decoded history.
- The tone lookup of the pages uses plain object keys. Prototype keys such as `constructor` are not modelled.
- The endpoints the front end calls for gaps and chat planning are not defined in `APIContext.tsx`. Their outcomes are inputs of the page models.
- An empty mission summary is treated like a missing one, following the truthiness test in the source.
- `Factory`: `chatbot in "dummy"` is a substring test, so "", "d" or "umm" also pick the dummy bot. It is kept as written, because nothing shows whether an exact match was meant.
- Browser effects are data here: the DOM, the Blob download, scrolling, `setInterval`, `Date.now`/`Math.random` ids, `console` and `alert`.
- The Assay Finder's sample answer is a parameter of the page model.
- `Array.from` over a string splits it into code points. Here a string is a sequence of characters, one per code point.
- `encodeURIComponent`, `decodeURIComponent` and Python's `quote` are parameters.
- The Gap Finder page's option-loading effect (`gaps.getOptions`) and its options state are left out. The options only fill the form's suggestions.
- THREE.js and canvas painting are a painter parameter. The model keeps what is drawn, not how.
- The auth, wikis, articles, comments, notifications and users endpoint groups are left out beyond `ApiContext.EndpointMethods`, which models the shape they all share. Media is the one group modelled in full.
- `GapFinderView.UniqueTargets` states a bound (at most one per highlight), not the exact count. The exact count depends on `|`-free names, which `GapFinderView.TargetKeyInjective` separately covers.
- `AssayFinderView.TotalAssays` states only the empty case in its own contract. Its link to the cards shown is `AssayFinderView.SumSizesCounts`.

## Findings

| source | as written | input that shows it | evidently intended | confidence | as-written member | corrected member |
|---|---|---|---|---|---|---|
| nasa-space-biology/components/mission-planner.tsx:338-339 | the plan is read from `response?.data?.plan ?? response?.data ?? response?.data?.answer`; the middle alternative is always defined when data is, so the `answer` fallback is never reached | a response whose data is `{answer: "<plan as JSON text>"}`: the plan becomes the whole data object, which has no plan fields | parse the `answer` text when there is no `plan` | not executed | `MissionPlanner.AnswerNeverParsed` | `MissionPlanner.PlanOfSpec` |
| nasa-space-biology/APIContext.tsx:101 | each cookie entry is split on every `=` and only the second piece is decoded | the cookie `oauth_token=a=b` yields the token `a` | the whole value after the first `=` (`a=b`) | not executed | `ApiContext.AsWrittenTruncates` | `ApiContext.CookieRoundTrip` |
| nasa-space-biology/APIContext.tsx:101-103 | an entry without `=` still matches its name and decodes `undefined`, which `decodeURIComponent` turns into the text "undefined" | the cookie `oauth_token` yields the token "undefined", sent as `Bearer undefined` | no token | not executed | `ApiContext.AsWrittenBareName` | `ApiContext.CookieToken` |
