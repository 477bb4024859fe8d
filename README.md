# A verified model of the sample framework's frame graph, DDS loader, glTF loader and sphere meshes

This project models in Dafny four parts of a small Direct3D sample framework:

- **The frame-graph planner** (`Utils/RenderGraph`).
  - Passes declare the resources they read and write.
  - `Build` gives every resource a dense index and turns each pass into a node with a read set and a write set.
  - Walking back from the root passes, it keeps only the passes that contribute.
  - It grows one footprint per remaining root and merges footprints that touch into islands ("affinity masks").
  - It keeps the contributing passes in order and ORs the view flags each resource is used with into its registered record.
  - It realises every used texture from a cache pool, then releases the pool.
  - `Execute` calls the kept passes' callbacks in order, inside one command list. It throws at the first kept pass that has no callback.
- **The DDS texture loader** (`Utils/DDSTextureLoader.cpp`).
  - The file checks: size, magic, header sizes and the DX10 extension.
  - The legacy pixel-format table.
  - The description and bounds checks that `CreateTextureFromDDS` applies.
  - `FillInitData`, which walks the payload mip by mip and array item by array item.
- **The glTF loader** (`Utils/GltfLoader.cpp`).
  - Every `Gltf_Parse` overload, with its required members and its defaults.
  - The array parses and the document parse.
  - The GLB container checks and the copy of the binary chunk.
  - The size of a component and the component count of an element type.
- **The generated meshes.**
  - The `u32` index and vertex counts of the UV sphere and their 16-bit guard.
  - The vertex layout (two poles around `stacks - 1` rings).
  - The cap and band index loops, shared by `MakeSphereMesh` (BouncyBalls) and `CreateSphere` (Volumetrics).
  - The unit cube of `CreateVolume`, with its face table and winding.

How the code is represented:

- **Pure parsing and table logic** is written as functions, with lemmas that state what they do. This covers the JSON member parses, the pixel-format table, the planner's node, liveness and footprint definitions, and the index formulas.
- **Code that works step by step** is written as methods with loops, proved against those functions. This covers:
  - the dense-index table, which keeps the `std::array` as an `array`;
  - the backward marking loop and the footprint loop;
  - the island merge;
  - `FillInitData`, which writes into an `array`;
  - the index writers, which write into an `array<int>`.
- **Objects whose fields change** are classes:
  - `RenderPass` and `RenderGraph`;
  - the texture cache (`TexturePool`);
  - the device (`Device`), which records every call it receives in a trace and answers from fixed oracles;
  - the glTF output object (`GltfOutput`).

Bit masks:

- The `std::bitset` read and write masks are sets of dense indices.
- The `uint64_t` root-affinity masks are sets of root indices, with at most 64 roots.

## Model

| member | source | states |
|---|---|---|
| RenderGraphTypes.AccessBits | Utils/RenderGraph/RenderGraph.h:17-23 | READ and WRITE are disjoint bits; READ_WRITE carries both, READ only read, WRITE only write, NONE neither |
| RenderGraphTypes.SameResourceIgnoresAccess | Utils/RenderGraph/RenderGraph.h:54 | two pass entries are equal exactly when their handles are, whatever their access and flags; the relation is reflexive and symmetric |
| RenderGraphTypes.HandlesOf | Utils/RenderGraph/RenderGraph.cpp:206-207 | the handle list has one entry per pass entry, each the entry's handle |
| RenderGraphTypes.TargetAccess | Utils/RenderGraph/RenderGraph.cpp:83-95 | a target is always written, and read exactly when its output access is LOAD |
| RenderGraphTypes.DefaultRecords | Utils/RenderGraph/RenderGraph.h:125-165 | a value-initialised registered record is not external, has no flags and no type; a default texture description is 0 by 0 UNKNOWN |
| RenderGraphTypes.FirstSeen | Utils/RenderGraph/RenderGraph.cpp:208-221 | the dense order holds exactly the handles of the input, none twice, and is no longer than the input |
| RenderGraphTypes.IndexOf | Utils/RenderGraph/RenderGraph.cpp:208-213 | the index found is of the first occurrence of the handle |
| RenderGraphTypes.IndexOfStable | Utils/RenderGraph/RenderGraph.cpp:208-221 | appending to the table never moves a handle's first index |
| RenderGraphTypes.AdjacentUnique | Utils/RenderGraph/RenderGraph.cpp:333 | `std::unique`: the result keeps the same members, the first and the last element, is no longer than the input, and no two neighbours are equal; AdjacentUniqueFixed and AdjacentUniqueCollapse pin it down on every input |
| RenderGraphTypes.AdjacentUniqueFixed | Utils/RenderGraph/RenderGraph.cpp:333 | only adjacent repeats are removed: a sequence with no two equal neighbours is returned unchanged, whatever repeats it holds further apart |
| RenderGraphTypes.AdjacentUniqueCollapse | Utils/RenderGraph/RenderGraph.cpp:333 | removing one of two equal neighbours anywhere in the input leaves the result unchanged; with AdjacentUniqueFixed, the result is the input with each run of equal neighbours cut to one element, order kept |
| RenderGraphTypes.NoDuplicatesCount | Utils/RenderGraph/RenderGraph.cpp:208-221 | a member of a list without duplicates occurs exactly once |
| RenderGraphTypes.CountAbsent | Utils/RenderGraph/RenderGraph.cpp:208-221 | an absent value occurs zero times |
| RenderGraphPass.RenderPass.Make | Utils/RenderGraph/RenderGraph.h:73-79 | a new pass has the given name and type, no resources, is not a root and has no callback |
| RenderGraphPass.RenderPass.MakeRoot | Utils/RenderGraph/RenderGraph.h:87 | the pass becomes a root, nothing else changes, and the same pass is returned for chaining |
| RenderGraphPass.RenderPass.SetExecuteCallback | Utils/RenderGraph/RenderGraph.cpp:70-75 | the callback is stored and nothing else changes |
| RenderGraphPass.RenderPass.AddResource | Utils/RenderGraph/RenderGraph.cpp:77-95 | for a handle not yet on the pass, appends one entry with the access of the output mode and the given flags, and the handles stay unique |
| RenderGraphPass.RenderPass.AddRenderTarget | Utils/RenderGraph/RenderGraph.cpp:97-100 | appends a render-target entry (RTV view) with the output mode's access |
| RenderGraphPass.RenderPass.AddDepthTarget | Utils/RenderGraph/RenderGraph.cpp:102-105 | appends a depth entry (DSV view) with the output mode's access |
| RenderGraphPass.RenderPass.AddComputeTarget | Utils/RenderGraph/RenderGraph.cpp:107-110 | appends a compute entry (UAV view) with the output mode's access |
| RenderGraphPass.RenderPass.ReadResource | Utils/RenderGraph/RenderGraph.cpp:112-119 | appends a read-only entry with the SRV view |
| RenderGraphPass.AppendKeepsUnique | Utils/RenderGraph/RenderGraph.cpp:77-81 | appending keeps the handles unique exactly when the new handle is not already on the pass |
| RenderGraphRegistry.RegisterTexture | Utils/RenderGraph/RenderGraph.cpp:121-144 | definition, no contract of its own: RegisterTexture on the registry's values, refusing a name bound to a handle other than NONE and otherwise binding it to the next handle with a texture record; RegisterTextureMeaning states what it does |
| RenderGraphRegistry.RegisterTextureMeaning | Utils/RenderGraph/RenderGraph.cpp:121-144 | a name bound to a handle other than NONE is refused and nothing changes; otherwise the name gets the next handle and a texture record with the description and no flags, other names and earlier records keep their values, and the registry stays well formed |
| RenderGraphRegistry.AddExternalRTV | Utils/RenderGraph/RenderGraph.cpp:146-171 | definition, no contract of its own: AddExternalRTV on the registry's values: an external untyped record, and the view and size stored in the realised slot when the array grows to reach the handle; AddExternalRTVMeaning states what it does |
| RenderGraphRegistry.AddExternalRTVMeaning | Utils/RenderGraph/RenderGraph.cpp:146-171 | a fresh name gets the next handle and an external, untyped record; the realised array grows to reach the handle, that slot carries the view and the size, and the slots it grows over are default |
| RenderGraphRegistry.FirstNameRegisteredTwice | Utils/RenderGraph/RenderGraph.cpp:123-129 | the first name registered gets handle 0, which is NONE, so registering it again is not refused and binds it to handle 1 |
| RenderGraphRegistry.LaterNameCaught | Utils/RenderGraph/RenderGraph.cpp:123-127 | a name bound to a handle other than NONE is refused and the registry is unchanged |
| RenderGraphTexturePool.Device.constructor | Utils/RenderGraph/RenderGraph.cpp:43-60 | a device with the given answers records no calls yet |
| RenderGraphTexturePool.Device.CreateTexture | Utils/RenderGraph/RenderGraph.cpp:54-60 | records one creation call with the description and returns the device's answer for that call |
| RenderGraphTexturePool.Device.CreateViewsForResourceFlags | Utils/RenderGraph/RenderGraph.cpp:43 | records one view-creation call and returns the device's answer for that call |
| RenderGraphTexturePool.Device.Release | Utils/RenderGraph/RenderGraph.cpp:412-416 | records one release call for the texture |
| RenderGraphTexturePool.Device.Record | Utils/RenderGraph/RenderGraph.cpp:422-437 | records the given call |
| RenderGraphTexturePool.FindOrCreate | Utils/RenderGraph/RenderGraph.cpp:25-68 | definition, no contract of its own: FindOrCreateTexture as a step on the cache and the device trace: the first fitting entry is taken out and its views requested, else a texture is created; FindOrCreateHit, FindOrCreateMiss and FindOrCreateOneCall state what it does |
| RenderGraphTexturePool.FirstMatch | Utils/RenderGraph/RenderGraph.cpp:27-34 | the index of the first cached texture with the requested format, width and height, or the cache's length when none matches |
| RenderGraphTexturePool.FindOrCreateHit | Utils/RenderGraph/RenderGraph.cpp:36-51 | on a hit the first match is erased with the others kept in order, views are requested for it, and it is returned when that succeeds and INVALID otherwise |
| RenderGraphTexturePool.FindOrCreateMiss | Utils/RenderGraph/RenderGraph.cpp:52-67 | on a miss the cache is unchanged, one texture is created with the description and its handle is returned |
| RenderGraphTexturePool.FindOrCreateOneCall | Utils/RenderGraph/RenderGraph.cpp:25-68 | every request makes exactly one device call and never adds to the cache |
| RenderGraphTexturePool.ReleaseCalls | Utils/RenderGraph/RenderGraph.cpp:413-416 | one release per cached texture, in cache order |
| RenderGraphTexturePool.TexturePool.constructor | Utils/RenderGraph/RenderGraph.cpp:23 | the cache starts empty |
| RenderGraphTexturePool.TexturePool.FindOrCreateTexture | Utils/RenderGraph/RenderGraph.cpp:25-68 | the cache, the device trace and the returned handle are those of the reference FindOrCreate |
| RenderGraphTexturePool.TexturePool.ReleaseAll | Utils/RenderGraph/RenderGraph.cpp:412-418 | releases every cached texture in order and empties the cache |
| RenderGraphNodes.Position | Utils/RenderGraph/RenderGraph.cpp:208-213 | the position of the first occurrence of a handle in the dense order, or the order's length when absent |
| RenderGraphNodes.Nodes | Utils/RenderGraph/RenderGraph.cpp:201-230 | one node per pass |
| RenderGraphNodes.AllHandlesSplit | Utils/RenderGraph/RenderGraph.cpp:201-206 | the handle list of the passes is that of a prefix followed by that of the rest |
| RenderGraphNodes.AllHandlesCovers | Utils/RenderGraph/RenderGraph.cpp:201-206 | every handle of every pass entry is in the handle list |
| RenderGraphNodes.DenseOrderCovers | Utils/RenderGraph/RenderGraph.cpp:208-221 | every handle a pass names has a dense index |
| RenderGraphNodes.FirstSeenPrefix | Utils/RenderGraph/RenderGraph.cpp:208-221 | the dense order of a prefix of the handle list is a prefix of the dense order of the whole |
| RenderGraphNodes.IndexOfPrefix | Utils/RenderGraph/RenderGraph.cpp:208-221 | a handle's dense index is the same in a prefix of the table and in the table |
| RenderGraphNodes.NodeOfPrefix | Utils/RenderGraph/RenderGraph.cpp:223-224 | a node built against a prefix of the dense order is the node built against the whole order |
| RenderGraphNodes.NodeOfMeaning | Utils/RenderGraph/RenderGraph.cpp:223-226 | a dense index is in a node's read (write) set exactly when some entry of the pass has that index and read (write) access; the node is a root exactly when the pass is a root and has an entry; it does not contribute yet |
| RenderGraphNodes.FirstSeenStep | Utils/RenderGraph/RenderGraph.cpp:208-221 | one more handle adds itself to the dense order only when it is new |
| RenderGraphNodes.ScannedPrefix | Utils/RenderGraph/RenderGraph.cpp:201-221 | the table after any number of scanned entries is a prefix of the final dense order |
| RenderGraphNodes.DenseIndex | Utils/RenderGraph/RenderGraph.cpp:208-221 | the linear search over the array either finds the handle's first index or appends it; the table becomes the one-step dense order, and the new index must lie below the array's length (`assert(numResources < RG_MAX_RESOURCES)`) |
| RenderGraphNodes.NodeOfStep | Utils/RenderGraph/RenderGraph.cpp:223-226 | one more entry sets the read and write bits of its index to its access and sets the root flag |
| RenderGraphNodes.EntryStep | Utils/RenderGraph/RenderGraph.cpp:206-229 | one entry of a pass extends the table and the node exactly as the reference definitions do with one more entry |
| RenderGraphNodes.PassNode | Utils/RenderGraph/RenderGraph.cpp:201-230 | one pass leaves the table equal to the dense order of all handles so far and produces that pass's node against the final order |
| RenderGraphNodes.BuildNodes | Utils/RenderGraph/RenderGraph.cpp:197-230 | with fewer than 1024 distinct resources, the loops produce the dense order in first-seen order and exactly the reference nodes |
| RenderGraphNodes.HandlesOfAppend | Utils/RenderGraph/RenderGraph.cpp:206-207 | the handles of two concatenated entry lists are the concatenated handles |
| RenderGraphLiveness.Mark | Utils/RenderGraph/RenderGraph.cpp:240-255 | definition, no contract of its own: one node as the backward walk leaves it: flagged as contributing when it is a root or writes a live resource, and a root that writes a live resource stops being a root; MarkedMeaning states what the walk does with it |
| RenderGraphLiveness.Marked | Utils/RenderGraph/RenderGraph.cpp:236-257 | marking keeps one node per pass |
| RenderGraphLiveness.MarkContributors | Utils/RenderGraph/RenderGraph.cpp:236-257 | the backward loop produces exactly the reference marking and counts its roots |
| RenderGraphLiveness.LiveMeaning | Utils/RenderGraph/RenderGraph.cpp:236-247 | an index is live after pass k exactly when a later contributing pass reads it and no contributing pass in between writes it |
| RenderGraphLiveness.SurvivalCharacterisation | Utils/RenderGraph/RenderGraph.cpp:241-247 | a pass contributes exactly when it is a root or it writes something a later contributing pass reads before anyone rewrites it |
| RenderGraphLiveness.RootsSurvive | Utils/RenderGraph/RenderGraph.cpp:243-244 | every root pass contributes |
| RenderGraphLiveness.ProducerSurvives | Utils/RenderGraph/RenderGraph.cpp:241-247 | the last writer of a resource before a contributing reader contributes |
| RenderGraphLiveness.UnreadPassCulled | Utils/RenderGraph/RenderGraph.cpp:241-244 | a non-root pass none of whose writes is read later is culled |
| RenderGraphLiveness.MarkedMeaning | Utils/RenderGraph/RenderGraph.cpp:236-257 | after marking a pass contributes exactly when it survives, stays a root exactly when it was one and none of its writes is read later (root demotion), and keeps its read and write sets |
| RenderGraphFootprint.RootPositionsFrom | Utils/RenderGraph/RenderGraph.cpp:269-275 | the roots at or after a position, each once, latest first, as the reverse iterator meets them |
| RenderGraphFootprint.RootPositionsCount | Utils/RenderGraph/RenderGraph.cpp:259-275 | there are as many root positions as the marking counted roots |
| RenderGraphFootprint.RootPositionsPrefix | Utils/RenderGraph/RenderGraph.cpp:269-275 | the roots from a position on are a prefix of all the roots, latest first |
| RenderGraphFootprint.Walk | Utils/RenderGraph/RenderGraph.cpp:279-297 | definition, no contract of its own: the footprint the inner loop grows for one root, adding every earlier non-root pass that writes something the footprint reads; WalkIsTreeUnion states what it holds |
| RenderGraphFootprint.Footprints | Utils/RenderGraph/RenderGraph.cpp:259-301 | one footprint per root |
| RenderGraphFootprint.WalkIsTreeUnion | Utils/RenderGraph/RenderGraph.cpp:279-297 | a root's footprint reads (writes) an index exactly when some pass of its tree reads (writes) it, where a non-root pass joins when it writes something the tree so far reads |
| RenderGraphFootprint.RootAffinityIsOwnIndex | Utils/RenderGraph/RenderGraph.cpp:282-288 | a root's affinity is its own root index, since each tree skips the other roots |
| RenderGraphFootprint.GrowRoot | Utils/RenderGraph/RenderGraph.cpp:276-297 | the inner loop produces the root's reference footprint and adds the root's index to the affinity of exactly the passes of its tree |
| RenderGraphFootprint.AffinityStep | Utils/RenderGraph/RenderGraph.cpp:276-297 | one more root extends every pass's affinity as the reference affinity does |
| RenderGraphFootprint.ComputeFootprints | Utils/RenderGraph/RenderGraph.cpp:263-301 | the loops produce exactly the reference footprints and every pass's reference affinity |
| RenderGraphIslands.ConnectedRefl | Utils/RenderGraph/RenderGraph.cpp:318-320 | every root is connected to itself |
| RenderGraphIslands.LinkedConnected | Utils/RenderGraph/RenderGraph.cpp:318-320 | two roots one of which reads what the other writes are connected |
| RenderGraphIslands.ConnectedSym | Utils/RenderGraph/RenderGraph.cpp:318-320 | connection is symmetric |
| RenderGraphIslands.ConnectedTrans | Utils/RenderGraph/RenderGraph.cpp:318-320 | connection is transitive |
| RenderGraphIslands.MergePairAsWritten | Utils/RenderGraph/RenderGraph.cpp:318-329 | one pair step of the merge as written keeps every label a valid root index |
| RenderGraphIslands.MergeFromAsWritten | Utils/RenderGraph/RenderGraph.cpp:314-331 | the double loop as written keeps every label a valid root index |
| RenderGraphIslands.MergeAsWritten | Utils/RenderGraph/RenderGraph.cpp:305-345 | definition, no contract of its own: the masks as written: the label loop, `std::unique` on the labels and one mask per remaining label; MergeAsWrittenOverlaps shows them overlapping |
| RenderGraphIslands.CexLinks | Utils/RenderGraph/RenderGraph.cpp:318-320 | in the three-root example only roots 0 and 2 touch |
| RenderGraphIslands.CexMergeState | Utils/RenderGraph/RenderGraph.cpp:314-331 | the merge as written on the example leaves masks {0,2}, {1}, {2} and labels 0, 1, 0 |
| RenderGraphIslands.MergeAsWrittenOverlaps | Utils/RenderGraph/RenderGraph.cpp:314-345 | the masks as written for the example are {0,2}, {1}, {0,2}: the first and the last overlap, so the independence assertion at line 343 fails, though 0 and 2 are connected and 1 is connected to neither |
| RenderGraphDemo.CexLive | Utils/RenderGraph/RenderGraph.cpp:231-256 | in the counterexample's graph (W writes T; the roots Ra, Rb and Rc), T is live below every root and nothing else is |
| RenderGraphDemo.CexMarked | Utils/RenderGraph/RenderGraph.cpp:231-256 | the liveness walk keeps all four nodes and leaves the three roots roots |
| RenderGraphDemo.CexRootPositions | Utils/RenderGraph/RenderGraph.cpp:258-270 | the roots are walked from the last, Rc, to the first, Ra |
| RenderGraphDemo.CexFootprints | Utils/RenderGraph/RenderGraph.cpp:258-301 | the footprints of that graph's marked nodes are the counterexample's: W joins the trees of Rc and Ra, which read T, and not Rb's |
| RenderGraphIslands.CexIndexList | Utils/RenderGraph/RenderGraph.cpp:333 | `std::unique` keeps the label list 0, 1, 0 whole, because its equal labels are not adjacent (an instance of AdjacentUniqueFixed) |
| RenderGraphIslands.IslandsOnCounterexample | Utils/RenderGraph/RenderGraph.cpp:314-345 | the corrected merge gives the example the two islands {0,2} and {1} |
| RenderGraphIslands.CexLabels | Utils/RenderGraph/RenderGraph.cpp:314-331 | the corrected labels of the example are 0, 1, 0 |
| RenderGraphIslands.NotConnectedToIsolated | Utils/RenderGraph/RenderGraph.cpp:318-320 | a root that touches no other root is connected to none |
| RenderGraphIslands.MergePairSound | Utils/RenderGraph/RenderGraph.cpp:318-329 | a pair step of the corrected merge only joins connected roots |
| RenderGraphIslands.MergePairDone | Utils/RenderGraph/RenderGraph.cpp:318-329 | after a pair step the two roots, if linked, share a label, and every earlier linked pair still does |
| RenderGraphIslands.MergeFromCorrect | Utils/RenderGraph/RenderGraph.cpp:314-331 | the corrected double loop ends with labels that are sound and give every linked pair one label |
| RenderGraphIslands.Labels | Utils/RenderGraph/RenderGraph.cpp:314-331 | the corrected label loop gives one label per root; LabelsMeaning states that equal labels mean connected roots |
| RenderGraphIslands.LabelsMeaning | Utils/RenderGraph/RenderGraph.cpp:314-345 | two roots get the same label exactly when they are connected |
| RenderGraphIslands.PathSameLabel | Utils/RenderGraph/RenderGraph.cpp:314-331 | when every linked pair shares a label, the two ends of any path do |
| RenderGraphIslands.IslandOf | Utils/RenderGraph/RenderGraph.cpp:338-345 | every root has an island |
| RenderGraphIslands.Islands | Utils/RenderGraph/RenderGraph.cpp:303-345 | definition, no contract of its own: the corrected masks, one per label in order of first root; IslandsMeaning states that they partition the roots into connected groups |
| RenderGraphIslands.IslandsMeaning | Utils/RenderGraph/RenderGraph.cpp:303-345 | the masks are pairwise disjoint, which is the independence the assertion at line 343 checks; they are nonempty and together are exactly the roots; the roots inside one mask are connected; connected roots share a mask |
| RenderGraphIslands.RelabelSweep | Utils/RenderGraph/RenderGraph.cpp:322-329 | the loop moves every root labelled `from` to `to` and leaves the rest |
| RenderGraphIslands.LabelIslands | Utils/RenderGraph/RenderGraph.cpp:314-331 | the corrected double loop produces the reference labels |
| RenderGraphIslands.CollectIslands | Utils/RenderGraph/RenderGraph.cpp:333-345 | collecting one mask per distinct label produces the reference islands |
| RenderGraphIslands.MergeIslands | Utils/RenderGraph/RenderGraph.cpp:303-345 | the corrected merge loops produce the corrected islands, whose masks are disjoint so the line-343 assertion holds |
| RenderGraphBuild.Survivors | Utils/RenderGraph/RenderGraph.cpp:349-360 | the kept pass positions are exactly the contributing ones, in increasing order |
| RenderGraphBuild.ConcatResourcesMembers | Utils/RenderGraph/RenderGraph.cpp:366-372 | the flattened entry list holds exactly the entries of the kept passes |
| RenderGraphBuild.AccumulateFlags | Utils/RenderGraph/RenderGraph.cpp:364-373 | one record per registered resource |
| RenderGraphBuild.AccumulateFlagsMeaning | Utils/RenderGraph/RenderGraph.cpp:364-373 | a record keeps everything but its flags, and has a view flag exactly when it had it or some kept entry for that handle has it |
| RenderGraphBuild.UsedAsWritten | Utils/RenderGraph/RenderGraph.cpp:375-384 | definition, no contract of its own: the used list as written: every kept entry's handle, then `std::unique`; DemoUsedLists shows it keeping 2, 1, 2, 0, 2, 0 for the sample frame |
| RenderGraphBuild.UsedHandles | Utils/RenderGraph/RenderGraph.cpp:375-384 | the corrected used list names each handle once, and only handles below any bound on the entries' handles |
| RenderGraphBuild.UsedHandlesMembers | Utils/RenderGraph/RenderGraph.cpp:375-384 | the corrected used list holds exactly the handles of the kept entries |
| RenderGraphBuild.UsedOnce | Utils/RenderGraph/RenderGraph.cpp:375-384 | every handle on the corrected used list occurs once |
| RenderGraphBuild.Grow | Utils/RenderGraph/RenderGraph.cpp:388-391 | `resize` to reach a handle keeps the existing slots and fills new ones with default records |
| RenderGraphBuild.Realise | Utils/RenderGraph/RenderGraph.cpp:388-409 | definition, no contract of its own: the loop body for one handle; RealiseStep states what it does |
| RenderGraphBuild.RealiseStep | Utils/RenderGraph/RenderGraph.cpp:386-410 | realising one handle grows the array to reach it, copies the record's type, leaves non-textures without device calls, links a texture to one FindOrCreate call with its size, depth 1 and its SRV, RTV, DSV and UAV, and changes no other slot |
| RenderGraphBuild.RealiseAll | Utils/RenderGraph/RenderGraph.cpp:386-410 | definition, no contract of its own: the instantiation loop over a handle list; RealiseAllMeaning and RealiseAllCalls state what it does |
| RenderGraphBuild.RealiseAllMeaning | Utils/RenderGraph/RenderGraph.cpp:386-410 | after the loop every used handle is realised as its record says, unused slots are unchanged, and no realised slot is external |
| RenderGraphBuild.RealiseAllCalls | Utils/RenderGraph/RenderGraph.cpp:386-410 | the loop makes one device call per texture use, appends to the trace and never adds to the pool |
| RenderGraphBuild.EmptyPoolStaysEmpty | Utils/RenderGraph/RenderGraph.cpp:25-68 | from an empty cache every device call of the loop creates a texture and the pool stays empty |
| RenderGraphObject.InfosOf | Utils/RenderGraph/RenderGraph.h:121 | the value view of the pass objects, one per pass |
| RenderGraphObject.Invocations | Utils/RenderGraph/RenderGraph.cpp:426-434 | the callbacks run in order up to the first kept pass without one: each call is its pass's callback, and the run stops short exactly at a pass whose callback is empty |
| RenderGraphObject.InvocationsComplete | Utils/RenderGraph/RenderGraph.cpp:426-434 | the run invokes every kept pass exactly when every kept pass has a callback |
| RenderGraphObject.TextureReleases | Utils/RenderGraph/RenderGraph.cpp:464-471 | every slot typed as a texture has its texture released, and every call is the release of such a slot's texture |
| RenderGraphObject.SurvivorsStep | Utils/RenderGraph/RenderGraph.cpp:355-359 | one more pass adds its position exactly when it contributes |
| RenderGraphObject.Analyse | Utils/RenderGraph/RenderGraph.cpp:197-347 | the node, marking, footprint and island loops together produce the reference marking and the corrected islands (the as-written merge is not used; see Left out) |
| RenderGraphObject.RenderGraph.constructor | Utils/RenderGraph/RenderGraph.h:97-168 | a new graph has no passes, no registrations and no resources |
| RenderGraphObject.RenderGraph.GetResource | Utils/RenderGraph/RenderGraph.cpp:179-183 | the handle bound to the name, or NONE |
| RenderGraphObject.RenderGraph.RegisterTexture | Utils/RenderGraph/RenderGraph.cpp:121-144 | the graph's registry and the returned handle are those of the reference registration, and the passes are untouched |
| RenderGraphObject.RenderGraph.AddExternalRTV | Utils/RenderGraph/RenderGraph.cpp:146-171 | the graph's registry and the returned handle are those of the reference external registration |
| RenderGraphObject.RenderGraph.AddPass | Utils/RenderGraph/RenderGraph.cpp:173-177 | appends a fresh empty pass with the name and type and returns it |
| RenderGraphObject.RenderGraph.Consolidate | Utils/RenderGraph/RenderGraph.cpp:349-360 | appends the contributing passes, in order, to the consolidated list |
| RenderGraphObject.RenderGraph.AssignFlags | Utils/RenderGraph/RenderGraph.cpp:364-373 | the registered records become the reference accumulation of the kept entries' flags |
| RenderGraphObject.RenderGraph.RealiseHandle | Utils/RenderGraph/RenderGraph.cpp:388-409 | the realised array, the pool and the trace become those of the reference step for one handle |
| RenderGraphObject.RenderGraph.RealiseResources | Utils/RenderGraph/RenderGraph.cpp:386-410 | the realised array, the pool and the trace become those of the reference loop |
| RenderGraphObject.RenderGraph.RealiseAndRelease | Utils/RenderGraph/RenderGraph.cpp:386-418 | realises as the reference loop does, then releases whatever is left in the pool and empties it |
| RenderGraphObject.RenderGraph.BuildTextures | Utils/RenderGraph/RenderGraph.cpp:362-419 | the flags are accumulated, every handle of the corrected used list is realised (in place of the list `std::unique` leaves; see Left out), and the pool is released and emptied |
| RenderGraphObject.RenderGraph.PlanPasses | Utils/RenderGraph/RenderGraph.cpp:197-360 | appends the passes of the reference marking that contribute, in order, and the corrected islands as affinity masks (in place of the as-written merge; see Left out) |
| RenderGraphObject.RenderGraph.AppendMasks | Utils/RenderGraph/RenderGraph.cpp:338-345 | appends the masks to the affinity masks |
| RenderGraphObject.RenderGraph.Build | Utils/RenderGraph/RenderGraph.cpp:195-420 | plans the passes and builds the textures: the consolidated passes and accumulated flags are the reference ones, the affinity masks are the corrected islands and the realised resources those of the corrected used list (both substitutions are listed under Left out), the pool is released and emptied, and the passes and names are unchanged |
| RenderGraphObject.RenderGraph.Execute | Utils/RenderGraph/RenderGraph.cpp:422-437 | creates a command list and calls the kept passes' callbacks in order; it reports a throw exactly when some kept pass has no callback, in which case the run stops at that pass and the list is never executed; otherwise the list is executed after the last callback |
| RenderGraphObject.RenderGraph.Destroy | Utils/RenderGraph/RenderGraph.cpp:464-471 | the device receives exactly those releases, in slot order |
| RenderGraphObject.ConsolidatedHandlesBelow | Utils/RenderGraph/RenderGraph.cpp:366-372 | when every pass names only registered handles, so does the flattened list of the kept passes |
| RenderGraphObject.BuildRealises | Utils/RenderGraph/RenderGraph.cpp:386-410 | after realising the corrected used list, every handle a kept entry names has its record's type; a texture has the record's size with depth 1 and views of its own texture, and any other slot keeps its views and size |
| RenderGraphDemo.DemoEntries | RenderGraph/RenderGraphMain.cpp:330-502 | the sample's passes clear colour and depth, and load colour and the back buffer |
| RenderGraphDemo.DemoDenseOrder | RenderGraph/RenderGraphMain.cpp:328-507 | the frame's dense order is colour, depth, back buffer |
| RenderGraphDemo.DemoNodes | RenderGraph/RenderGraphMain.cpp:328-507 | the sample's four nodes |
| RenderGraphDemo.DemoLive | Utils/RenderGraph/RenderGraph.cpp:236-257 | the live sets behind each pass of the frame |
| RenderGraphDemo.DemoMarked | Utils/RenderGraph/RenderGraph.cpp:236-257 | the marking of the frame: every pass contributes and UI remains the only root |
| RenderGraphDemo.DemoRootCount | Utils/RenderGraph/RenderGraph.cpp:253-254 | the frame has one root |
| RenderGraphDemo.DemoSurvivors | Utils/RenderGraph/RenderGraph.cpp:349-360 | all four passes are kept |
| RenderGraphDemo.DemoIslands | Utils/RenderGraph/RenderGraph.cpp:303-345 | the frame has one island |
| RenderGraphDemo.DemoPlan | RenderGraph/RenderGraphMain.cpp:569-649 | the frame meets the planner's limits and is planned as one island of four passes |
| RenderGraphDemo.DemoAdjacentUnique | Utils/RenderGraph/RenderGraph.cpp:384 | `std::unique` leaves the frame's flattened handle list unchanged, since no two neighbours are equal (an instance of AdjacentUniqueFixed) |
| RenderGraphDemo.DemoColourCount | Utils/RenderGraph/RenderGraph.cpp:375-384 | the frame's flattened handle list names colour three times |
| RenderGraphDemo.DemoTextureUsesAsWritten | Utils/RenderGraph/RenderGraph.cpp:375-384 | four positions of the list as written name a texture |
| RenderGraphDemo.DemoTextureUsesCorrected | Utils/RenderGraph/RenderGraph.cpp:375-384 | two positions of the corrected list name a texture |
| RenderGraphDemo.DemoUsedLists | Utils/RenderGraph/RenderGraph.cpp:375-384 | `std::unique` leaves the frame's list 2, 1, 2, 0, 2, 0 whole, with colour three times; the corrected list is 2, 1, 0 |
| RenderGraphDemo.DemoRealise | Utils/RenderGraph/RenderGraph.cpp:375-410 | from an empty cache the list as written creates four textures for the frame's two, while the corrected list creates two |
| DdsBytes.EncodeWords | Utils/DDSTextureLoader.cpp:75-100 | four bytes per word |
| DdsBytes.ReadWords | Utils/DDSTextureLoader.cpp:75-100 | reads the requested number of words |
| DdsBytes.BytesOfWord | Utils/DDSTextureLoader.cpp:13-15 | a word is the little-endian sum of its four bytes |
| DdsBytes.ReadEncoded | Utils/DDSTextureLoader.cpp:464 | reading a word back from an encoded word list gives that word, wherever the list sits in the file |
| DdsBytes.ReadWordsEncoded | Utils/DDSTextureLoader.cpp:468 | reading a run of words back gives that run |
| DdsBytes.FourCCIsStoredWord | Utils/DDSTextureLoader.cpp:13-15 | MAKEFOURCC is the little-endian word of its four characters, first character in the low byte |
| DdsBytes.MagicIsFourCC | Utils/DDSTextureLoader.cpp:25 | the magic number is the four-character code "DDS " |
| DdsPixelFormat.FourCCCodesSpelled | Utils/DDSTextureLoader.cpp:247-344 | each four-character code the loader compares against spells its name |
| DdsPixelFormat.RgbRoundTrip | Utils/DDSTextureLoader.cpp:108-184 | every format the RGB masks name is written back as masks that read as that format |
| DdsPixelFormat.LuminanceRoundTrip | Utils/DDSTextureLoader.cpp:185-213 | the same for the luminance masks |
| DdsPixelFormat.BumpRoundTrip | Utils/DDSTextureLoader.cpp:221-246 | the same for the bump-map masks |
| DdsPixelFormat.CompressedRoundTrip | Utils/DDSTextureLoader.cpp:247-291 | every block-compressed format has a four-character code that reads as it |
| DdsPixelFormat.PackedRoundTrip | Utils/DDSTextureLoader.cpp:293-311 | the same for the packed YUV and RGBG codes |
| DdsPixelFormat.HalfCodeRoundTrip | Utils/DDSTextureLoader.cpp:313-344 | the same for the numeric codes of 16-bit formats |
| DdsPixelFormat.HalfFloatCodeRoundTrip | Utils/DDSTextureLoader.cpp:313-344 | the same for the numeric codes of half-float formats |
| DdsPixelFormat.FloatCodeRoundTrip | Utils/DDSTextureLoader.cpp:313-344 | the same for the numeric codes of float formats |
| DdsPixelFormat.LegacyRoundTrip | Utils/DDSTextureLoader.cpp:106-347 | every format a legacy header can name is written back as a pixel format that GetRenderFormat reads as that format |
| DdsPixelFormat.LegacyCoversTable | Utils/DDSTextureLoader.cpp:106-347 | every format GetRenderFormat returns has a legacy pixel format |
| DdsPixelFormat.RgbFirst | Utils/DDSTextureLoader.cpp:108-184 | the RGB flag is checked first, and a 24-bit RGB format is UNKNOWN |
| DdsPixelFormat.AlphaIgnoresMasks | Utils/DDSTextureLoader.cpp:214-220 | an alpha-only format is A8 exactly when it has 8 bits, whatever its masks |
| DdsPixelFormat.GetRenderFormat | Utils/DDSTextureLoader.cpp:106-347 | definition, no contract of its own: the legacy pixel-format table, where the first of the RGB, LUMINANCE, ALPHA, BUMPDUDV and FOURCC flags that is set picks the table; LegacyRoundTrip, LegacyCoversTable, RgbFirst, AlphaIgnoresMasks and FourCCTable state what it does |
| DdsPixelFormat.FourCCTable | Utils/DDSTextureLoader.cpp:247-344 | with only the FOURCC flag the code decides the format; the premultiplied DXT2 and DXT4 read as BC2 and BC3, ATI1 and ATI2 as BC4 and BC5, and code 0 as UNKNOWN |
| DdsHeaders.WordsOfHeader | Utils/DDSTextureLoader.cpp:75-91 | the header is 31 words |
| DdsHeaders.HeaderWordsRoundTrip | Utils/DDSTextureLoader.cpp:75-91 | a header and its 31 little-endian words convert into each other both ways |
| DdsHeaders.WordsOfDx10 | Utils/DDSTextureLoader.cpp:93-100 | the DX10 extension is 5 words |
| DdsHeaders.LoadTextureData | Utils/DDSTextureLoader.cpp:444-492 | definition, no contract of its own: LoadTextureDataFromFile on the file's bytes; LoadedShape, LoadRejects and LoadWritten state what it accepts and returns |
| DdsHeaders.LoadedShape | Utils/DDSTextureLoader.cpp:444-492 | a loaded file has a 124-byte header and a 32-byte pixel format, has the DX10 extension exactly when the header names it, and its payload starts after the headers and runs to the end of the file |
| DdsHeaders.LoadRejects | Utils/DDSTextureLoader.cpp:460-480 | a file shorter than the magic and the header, with the wrong magic or with the wrong header size is rejected, and a file too short for the extension loads only without it |
| DdsHeaders.EncodedWords | Utils/DDSTextureLoader.cpp:468 | reading words and writing them back gives the bytes read |
| DdsHeaders.ByteOfRead | Utils/DDSTextureLoader.cpp:464 | each byte of a word read from the file is the byte stored there |
| DdsHeaders.WrittenWords | Utils/DDSTextureLoader.cpp:460-489 | a written file's magic, header, extension and payload read back as written |
| DdsHeaders.WrittenHeader | Utils/DDSTextureLoader.cpp:460-468 | a written header reads back |
| DdsHeaders.WrittenMagic | Utils/DDSTextureLoader.cpp:464 | a written magic word reads back |
| DdsHeaders.WrittenHeaderWords | Utils/DDSTextureLoader.cpp:468 | the header's words read back |
| DdsHeaders.WrittenExtension | Utils/DDSTextureLoader.cpp:516 | a written extension reads back |
| DdsHeaders.LoadWritten | Utils/DDSTextureLoader.cpp:444-492 | loading a file written from a valid header, an optional extension and a payload gives that header, that extension, the right offset and the payload |
| DdsFill.MipStep | Utils/DDSTextureLoader.cpp:390-437 | definition, no contract of its own: one pass of the mip loop; MipStepWalked states that entries stay consecutive in the walked bytes |
| DdsFill.Fill | Utils/DDSTextureLoader.cpp:372-441 | definition, no contract of its own: the whole walk from the reset state; FillKeepsAll, FillRecordsAtMost, FillTopExtent and FillWithinPayload state what it records |
| DdsFill.MipsKeepAll | Utils/DDSTextureLoader.cpp:388-438 | when every mip is kept, the mip loop records one entry per mip and skips none |
| DdsFill.ItemsKeepAll | Utils/DDSTextureLoader.cpp:383-439 | when every mip is kept, the item loop records one entry per mip of every item |
| DdsFill.FillKeepsAll | Utils/DDSTextureLoader.cpp:383-441 | when every mip is kept, a successful fill records mip count times array size entries and skips no mip |
| DdsFill.MipsAtMost | Utils/DDSTextureLoader.cpp:388-438 | the mip loop records at most one entry per mip |
| DdsFill.ItemsAtMost | Utils/DDSTextureLoader.cpp:383-439 | the item loop records at most one entry per mip of every item |
| DdsFill.FillRecordsAtMost | Utils/DDSTextureLoader.cpp:404 | the fill never writes more than mip count times array size entries, the bound the assertion at line 404 checks |
| DdsFill.MipsTopStays | Utils/DDSTextureLoader.cpp:397-402 | once the top extent is set the mip loop keeps it |
| DdsFill.ItemsTopStays | Utils/DDSTextureLoader.cpp:397-402 | the item loop keeps it too |
| DdsFill.FillTopExtent | Utils/DDSTextureLoader.cpp:395-402 | when every mip is kept, the top extent reported is the texture's own |
| DdsFill.MipStepWalked | Utils/DDSTextureLoader.cpp:390-421 | a mip step keeps the recorded entries consecutive inside the bytes walked |
| DdsFill.MipsWalked | Utils/DDSTextureLoader.cpp:388-438 | so does the mip loop |
| DdsFill.ItemsWalked | Utils/DDSTextureLoader.cpp:383-439 | so does the item loop |
| DdsFill.WalkedEnd | Utils/DDSTextureLoader.cpp:405-421 | each recorded entry ends before the walked position |
| DdsFill.FillWithinPayload | Utils/DDSTextureLoader.cpp:416-421 | a successful fill walks no further than the payload, every entry lies inside what was walked, and the entries come in increasing order without overlap |
| DdsFill.CountBound | Utils/DDSTextureLoader.cpp:404 | an item and a mip index give a slot below mip count times array size |
| DdsFill.FillItem | Utils/DDSTextureLoader.cpp:388-438 | the mip loop of one item writes the array and its counters exactly as the reference fill does, never past the item's slots |
| DdsFill.FillInitData | Utils/DDSTextureLoader.cpp:351-442 | refuses missing data or a missing array and leaves the four reference parameters as they came in; otherwise succeeds exactly when the reference fill does, reports its extents and skipped mips, and the array holds its entries with the remaining slots untouched |
| DdsCreate.ShapeDx10 | Utils/DDSTextureLoader.cpp:513-570 | definition, no contract of its own: the DX10 branch of CreateTextureFromDDS; Dx10Bounds and Dx10Rejections state what it accepts |
| DdsCreate.ShapeLegacy | Utils/DDSTextureLoader.cpp:571-604 | definition, no contract of its own: the legacy branch; LegacyBounds, LegacyTexture2D and LegacyCubeNeedsAllFaces state what it accepts |
| DdsCreate.Bound | Utils/DDSTextureLoader.cpp:606-671 | definition, no contract of its own: the size bounds per dimension; DescribeWithinBounds states that accepted descriptions respect them |
| DdsCreate.DescribeDds | Utils/DDSTextureLoader.cpp:501-674 | definition, no contract of its own: the description a header yields or the check it fails; DescribeWithinBounds and DescribeLegacy2D state what it gives |
| DdsCreate.CreateFromDds | Utils/DDSTextureLoader.cpp:494-690 | definition, no contract of its own: CreateTextureFromDDS on values; CreateRecordsEverySubresource and CreateLegacy2D state what it creates |
| DdsCreate.LoadDdsSpec | Utils/DDSTextureLoader.cpp:692-705 | definition, no contract of its own: DDSTextureLoader_Load on values; LoadWrittenFile and LoadLegacy2D state what it loads |
| DdsCreate.RequestData | Utils/DDSTextureLoader.cpp:677-687 | the data passed to the device has one slot per mip of every item |
| DdsCreate.FillRecords | Utils/DDSTextureLoader.cpp:677-686 | allocating the array and filling it succeeds exactly when the reference fill does, and then gives the reference data |
| DdsCreate.CreateTextureFromDDS | Utils/DDSTextureLoader.cpp:494-690 | the method computes exactly the reference creation |
| DdsCreate.FilledCells | Utils/DDSTextureLoader.cpp:677-686 | the filled array is the entries followed by untouched slots |
| DdsCreate.DDSTextureLoaderLoad | Utils/DDSTextureLoader.cpp:692-705 | the loader computes the reference load: no path, a load failure or a creation failure gives a failure, and otherwise the texture created from the loaded file with no size limit |
| DdsProperties.Dx10Bounds | Utils/DDSTextureLoader.cpp:513-671 | a DX10 file that passes has the extension's format with nonzero bits per pixel, a cube map's array is six times the extension's, and the bounds hold |
| DdsProperties.LegacyBounds | Utils/DDSTextureLoader.cpp:576-671 | a legacy file that passes has the table's format, never 1D, is a cube map only with all six faces and array size 6, is 3D exactly when the volume flag is set, and the bounds hold |
| DdsProperties.LegacyNotPalette | Utils/DDSTextureLoader.cpp:106-347 | the legacy table never yields a palette format |
| DdsProperties.DescribeWithinBounds | Utils/DDSTextureLoader.cpp:506-671 | every accepted description is within the hardware bounds, has mip count 1 for a header count of 0, and keeps the header's width |
| DdsProperties.LegacyTexture2D | Utils/DDSTextureLoader.cpp:576-652 | a plain legacy 2D header passes exactly when its format is known, it has at most 15 mips and it is at most 16384 by 16384, and it then describes exactly that texture |
| DdsProperties.LegacyCubeNeedsAllFaces | Utils/DDSTextureLoader.cpp:591-601 | a legacy cube map that lacks a face is rejected, and one with all faces is a cube map of six |
| DdsProperties.Dx10Rejections | Utils/DDSTextureLoader.cpp:519-571 | a zero array size, a palette format, an unknown dimension, 3D without the volume flag and a 3D array are each rejected |
| DdsProperties.CreateRecordsEverySubresource | Utils/DDSTextureLoader.cpp:673-689 | a created texture has the accepted description, bounded sizes, the description's format as both resource and view format, the SRV flag alone, and one data slot per subresource holding the fill's entries, each inside the payload and in payload order |
| DdsProperties.DescribeLegacy2D | Utils/DDSTextureLoader.cpp:576-652 | the header written for a legacy 2D texture describes exactly that texture |
| DdsProperties.LoadWrittenFile | Utils/DDSTextureLoader.cpp:692-705 | loading a written file gives exactly the creation from its header and payload |
| DdsProperties.CreateLegacy2D | Utils/DDSTextureLoader.cpp:494-690 | creating from a written legacy 2D header succeeds exactly when the fill does, and gives that texture, its format for both views, the SRV flag and the fill's data |
| DdsProperties.LoadLegacy2D | Utils/DDSTextureLoader.cpp:444-705 | writing a legacy 2D texture to a file and loading it succeeds exactly when its fill does, and then gives that texture |
| GltfJson.Lookup | Utils/GltfLoader.cpp:128-132 | a member is found exactly when some pair has the key, and the first such pair is returned |
| GltfParse.AssetOf | Utils/GltfLoader.cpp:96-110 | definition, no contract of its own: Gltf_Parse(GltfAsset); RequiredMembers states that it fails exactly without `version` |
| GltfParse.SceneOf | Utils/GltfLoader.cpp:112-126 | definition, no contract of its own: Gltf_Parse(GltfScene), which always succeeds, with the node list read when present |
| GltfParse.NodeOf | Utils/GltfLoader.cpp:134-157 | definition, no contract of its own: Gltf_Parse(GltfNode), which always succeeds; NodeDefaults states its defaults |
| GltfParse.PrimitiveOf | Utils/GltfLoader.cpp:172-186 | definition, no contract of its own: Gltf_Parse(GltfMeshPrimitive); RequiredMembers and PrimitiveDefaults state its required member and defaults |
| GltfParse.MeshOf | Utils/GltfLoader.cpp:188-201 | definition, no contract of its own: Gltf_Parse(GltfMesh); MeshSucceeds states when it succeeds |
| GltfParse.TextureInfoOf | Utils/GltfLoader.cpp:203-228 | definition, no contract of its own: GltfTextureInfo_Parse and GltfNormalTextureInfo_Parse; RequiredMembers states that they fail exactly without `index` |
| GltfParse.PbrOf | Utils/GltfLoader.cpp:239-256 | definition, no contract of its own: GltfPbrMetallicRoughness_Parse; TexturePresence states when it has a base colour texture |
| GltfParse.MaterialOf | Utils/GltfLoader.cpp:258-276 | definition, no contract of its own: Gltf_Parse(GltfMaterial), which always succeeds; TexturePresence states when it has a normal texture and its default PBR block |
| GltfParse.TextureOf | Utils/GltfLoader.cpp:278-288 | definition, no contract of its own: Gltf_Parse(GltfTexture), which always succeeds, with sampler and source -1 when absent |
| GltfParse.SamplerOf | Utils/GltfLoader.cpp:290-302 | definition, no contract of its own: Gltf_Parse(GltfSampler), which always succeeds; SamplerDefaults states its defaults |
| GltfParse.ImageOf | Utils/GltfLoader.cpp:304-315 | definition, no contract of its own: Gltf_Parse(GltfImage), which always succeeds, with bufferView -1 when absent |
| GltfParse.AccessorOf | Utils/GltfLoader.cpp:317-362 | definition, no contract of its own: Gltf_Parse(GltfAccessor); RequiredMembers, AccessorDefaults and AccessorType state its required members, defaults and type |
| GltfParse.BufferViewOf | Utils/GltfLoader.cpp:364-382 | definition, no contract of its own: Gltf_Parse(GltfBufferView); RequiredMembers and BufferViewDefaults state its required members and defaults |
| GltfParse.BufferOf | Utils/GltfLoader.cpp:384-397 | definition, no contract of its own: Gltf_Parse(GltfBuffer); RequiredMembers states that it fails exactly without `byteLength` |
| GltfParse.MatrixParse | Utils/GltfLoader.cpp:83-94 | the loop reads the reference matrix |
| GltfParse.UintListParse | Utils/GltfLoader.cpp:118-123 | the loop reads the reference list |
| GltfParse.NumberListParse | Utils/GltfLoader.cpp:345-359 | the loop reads the reference list |
| GltfParse.MeshAttributesParse | Utils/GltfLoader.cpp:159-170 | the loop reads the reference attributes |
| GltfArrays.FirstFailure | Utils/GltfLoader.cpp:403-404 | the first item from a position on that fails to parse, or the end |
| GltfArrays.ParseArrayMeaning | Utils/GltfLoader.cpp:399-407 | an array parse succeeds exactly when every item parses; the result always has one element per item; on failure the items up to the first failure are parsed and the rest stay default |
| GltfArrays.GltfArrayParse | Utils/GltfLoader.cpp:399-407 | the loop computes the reference array parse |
| GltfDocument.ExtensionArrayParse | Utils/GltfLoader.cpp:421-433 | the loop reads the reference list |
| GltfDocument.ExtensionsRequiredAsWritten | Utils/GltfLoader.cpp:435-436 | definition, no contract of its own: the required extensions as the loader fills them, from the `"extensionsUsed"` key |
| GltfDocument.ExtensionsRequired | Utils/GltfLoader.cpp:435-436 | definition, no contract of its own: the corrected read, from the `"extensionsRequired"` key; ExtensionsRequiredMeaning states what it holds |
| GltfDocument.RequiredReadFromUsed | Utils/GltfLoader.cpp:435-436 | as written, `extensionsRequired` is filled from `extensionsUsed`: a document using A and B and requiring A reports A and B as required, and a document that only requires A reports nothing; the corrected read gives A in both |
| GltfDocument.ExtensionsRequiredMeaning | Utils/GltfLoader.cpp:436 | the corrected required list is the document's `extensionsRequired` array, or empty when absent |
| GltfDocument.OptionalArrayParse | Utils/GltfLoader.cpp:440-449 | an absent key leaves the array empty and succeeds; a present one is the array parse |
| GltfDocument.GltfOf | Utils/GltfLoader.cpp:409-452 | definition, no contract of its own: Gltf_Parse(Gltf), with `extensionsRequired` read from its own key (the corrected read; see Left out); GltfSucceeds, GltfFailsOnlyOnRequired, GltfArraySizes and GltfNeedsAsset state what it does |
| GltfDocument.GltfParseDocument | Utils/GltfLoader.cpp:409-452 | the method computes the document parse `GltfOf` defines, reading `extensionsRequired` from its own key (the corrected read; see Left out) |
| GltfDocument.OptionalFields1 | Utils/GltfLoader.cpp:440-444 | the first five arrays are parsed and their successes ANDed |
| GltfDocument.OptionalFields2 | Utils/GltfLoader.cpp:445-449 | the last five arrays are parsed and their successes ANDed |
| GltfDocument.ComponentCountIsShape | Utils/GltfLoader.cpp:554-574 | the component count of an element type is its rows times its columns: 1, 2, 3, 4, 4, 9, 16 |
| GltfDocument.SizeOfComponentKnown | Utils/GltfLoader.cpp:536-552 | a component is 1, 2 or 4 bytes exactly for the six known component types and 0 bytes otherwise |
| GltfDocument.TypeNameRoundTrip | Utils/GltfLoader.cpp:330-338 | each element type's name selects that type, which has components, and any other name keeps the prior type |
| GltfProperties.OptionalArrayMeaning | Utils/GltfLoader.cpp:440-449 | an optional array succeeds exactly when every entry parses, and has one element per entry (none when absent) |
| GltfProperties.GltfSucceeds | Utils/GltfLoader.cpp:409-452 | the document parses exactly when it has an asset and every entry of every array present parses; whether the asset itself parses plays no part |
| GltfProperties.GltfFailsOnlyOnRequired | Utils/GltfLoader.cpp:409-452 | with an asset, only accessors, buffers, buffer views and meshes can make the document fail |
| GltfProperties.GltfArraySizes | Utils/GltfLoader.cpp:440-449 | the output arrays have one element per JSON entry |
| GltfProperties.GltfNeedsAsset | Utils/GltfLoader.cpp:411 | a document without an asset fails and leaves the output as reset |
| GltfProperties.RequiredMembers | Utils/GltfLoader.cpp:96-397 | an asset needs version, a primitive attributes, a texture info index, an accessor componentType, count and type, a buffer view buffer and byteLength, a buffer byteLength; a failed accessor or buffer view stays default |
| GltfProperties.MeshSucceeds | Utils/GltfLoader.cpp:188-201 | a mesh parses exactly when it has primitives and each has attributes; a failed mesh keeps no name; it has one primitive per entry |
| GltfProperties.NodeDefaults | Utils/GltfLoader.cpp:134-157 | an absent mesh is -1, scale 1, rotation the identity quaternion, children empty, and present children are all read |
| GltfProperties.PrimitiveDefaults | Utils/GltfLoader.cpp:172-186 | absent indices and material are -1, the mode is triangles, and every attribute is read |
| GltfProperties.SamplerDefaults | Utils/GltfLoader.cpp:290-302 | absent wrap modes repeat and absent filters are -1 |
| GltfProperties.AccessorDefaults | Utils/GltfLoader.cpp:317-362 | absent byteOffset is 0, normalized false, bufferView -1 |
| GltfProperties.BufferViewDefaults | Utils/GltfLoader.cpp:364-382 | absent byteStride and target are -1 and byteOffset 0 |
| GltfProperties.AccessorType | Utils/GltfLoader.cpp:330-338 | the accessor's type string selects the element type, and an unknown string leaves the default |
| GltfProperties.TexturePresence | Utils/GltfLoader.cpp:203-276 | a material's texture counts as present exactly when the member and its index exist, and a missing PBR block gives the PBR defaults |
| GltfGlb.JsonChunkAsWritten | Utils/GltfLoader.cpp:463-497 | definition, no contract of its own: the header and JSON chunk checks in the loader's order, with every read it makes past the end of the file marked |
| GltfGlb.BinChunk | Utils/GltfLoader.cpp:519-528 | definition, no contract of its own: the binary chunk after the JSON text, or nothing when the file does not hold it |
| GltfGlb.LoadDocument | Utils/GltfLoader.cpp:494-528 | definition, no contract of its own: what follows a located JSON text: the text is parsed, then the document, then the binary chunk is copied |
| GltfGlb.LoadGlbAsWritten | Utils/GltfLoader.cpp:454-534 | definition, no contract of its own: the load as written, marking a read past the end of the file; CheckedLoadAgrees and JsonOnlyReadsPastEnd state how it relates to the checked load |
| GltfGlb.LoadGlb | Utils/GltfLoader.cpp:454-534 | definition, no contract of its own: the load with every read checked; LoadGlbRejects, LoadGlbAccepts and LoadWrittenGlb state what it does |
| GltfGlb.JsonChunk | Utils/GltfLoader.cpp:466-497 | a located JSON text comes from a file with the glTF magic, version 2 and a JSON first chunk, which holds the whole text the chunk announces |
| GltfGlb.CheckedLoadAgrees | Utils/GltfLoader.cpp:454-534 | the checked load gives what the loader as written gives wherever it stays inside the file, and reports out of bounds exactly where it reads past the end |
| GltfGlb.LoadGlbRejects | Utils/GltfLoader.cpp:463-491 | an empty file, a short header, a wrong magic, a wrong version and a first chunk that is not JSON are rejected in that order, each leaving the output reset |
| GltfGlb.LoadGlbAccepts | Utils/GltfLoader.cpp:454-534 | a successful load has a valid header, a JSON first chunk, a parsed document, and the binary chunk after the text as its data |
| GltfGlb.GlbHeaderWords | Utils/GltfLoader.cpp:466-490 | a written GLB file's header and chunk header read back |
| GltfGlb.GlbChunks | Utils/GltfLoader.cpp:495-528 | a written GLB file's JSON text, binary length and binary bytes read back |
| GltfGlb.LoadWrittenGlb | Utils/GltfLoader.cpp:454-534 | loading a written GLB file gives the document `GltfOf` parses, with the binary chunk as data, exactly when that document parses; that document reads `extensionsRequired` from its own key (see Left out) |
| GltfGlb.JsonOnlyWords | Utils/GltfLoader.cpp:466-490 | a file with only a JSON chunk has a valid header |
| GltfGlb.JsonOnlyChunks | Utils/GltfLoader.cpp:495-528 | a file with only a JSON chunk has its text located and no binary chunk |
| GltfGlb.JsonOnlyReadsPastEnd | Utils/GltfLoader.cpp:519-528 | for a file with no binary chunk the loader reads the binary chunk's header past the end of the file; the checked load reports it |
| GltfGlb.BareHeaderReadsPastEnd | Utils/GltfLoader.cpp:486-490 | a bare 12-byte header passes every check before the JSON chunk's type is read past the end of the file |
| GltfGlb.GltfOutput.constructor | Utils/GltfLoader.cpp:459 | a new output is the reset document |
| GltfGlb.GltfLoaderLoad | Utils/GltfLoader.cpp:454-534 | a missing output fails; otherwise the result and the output are exactly those of the checked load, whose document reads `extensionsRequired` from its own key (see Left out) |
| SphereMesh.U32 | BouncyBalls/BouncyBallsMain.cpp:159-160 | reduction modulo 2^32, the identity on values that fit |
| SphereMesh.IndexCountU32 | BouncyBalls/BouncyBallsMain.cpp:159 | the index count as a `u32` |
| SphereMesh.VertexCountU32 | BouncyBalls/BouncyBallsMain.cpp:160 | the vertex count as a `u32` |
| SphereMesh.TimesIsProduct | BouncyBalls/BouncyBallsMain.cpp:159-160 | the repeated sum the loops walk is the product |
| SphereMesh.OneStackOverruns | BouncyBalls/BouncyBallsMain.cpp:159-162 | with one stack the `u32` index count wraps to 0, the guard passes, and the cap loop writes more indices than the buffer holds |
| SphereMesh.FittingCountsAgree | BouncyBalls/BouncyBallsMain.cpp:159-162 | for a sphere that fits, the `u32` counts equal the exact counts and the writes the loops make, the guard as written holds, and there are 6 indices per vertex off the poles |
| SphereMesh.Layout | BouncyBalls/BouncyBallsMain.cpp:176-211 | the layout has one slot per vertex of the count |
| SphereMesh.LayoutPoles | BouncyBalls/BouncyBallsMain.cpp:176-211 | the north pole is the first slot and the south pole the last |
| SphereMesh.LayoutRing | BouncyBalls/BouncyBallsMain.cpp:184-206 | ring j, slice i sits in slot 1 + j * slices + i, strictly between the poles |
| SphereMesh.SphereIndices | BouncyBalls/BouncyBallsMain.cpp:231-259 | the index list has as many entries as the exact index count |
| SphereMesh.CapPlacement | BouncyBalls/BouncyBallsMain.cpp:231-239 | the six indices of slice i's caps come first, at 6 * i |
| SphereMesh.BandPlacement | BouncyBalls/BouncyBallsMain.cpp:241-259 | the six indices of band j, slice i follow the caps, at 6 * slices + 6 * (j * slices + i) |
| SphereMesh.CapSixMeaning | BouncyBalls/BouncyBallsMain.cpp:231-239 | a cap's six indices name the first ring with the north pole and the last ring with the south pole, at slices i and i + 1 (wrapping) |
| SphereMesh.BandSixMeaning | BouncyBalls/BouncyBallsMain.cpp:241-259 | a band's six indices name rings j and j + 1 at slices i and i + 1 (wrapping), as two triangles sharing a diagonal |
| SphereMesh.NextSlice | BouncyBalls/BouncyBallsMain.cpp:233 | `(i + 1) % slices` is the next slice, wrapping to 0 |
| SphereMesh.CapSixInRange | BouncyBalls/BouncyBallsMain.cpp:231-239 | every cap index names a vertex |
| SphereMesh.CapsInRange | BouncyBalls/BouncyBallsMain.cpp:231-239 | every index of the caps names a vertex |
| SphereMesh.BandSixInRange | BouncyBalls/BouncyBallsMain.cpp:241-259 | every band index names a vertex |
| SphereMesh.BandRowInRange | BouncyBalls/BouncyBallsMain.cpp:245-258 | every index of a band row names a vertex |
| SphereMesh.BandsInRange | BouncyBalls/BouncyBallsMain.cpp:241-259 | every index of the bands names a vertex |
| SphereMesh.IndicesInRange | BouncyBalls/BouncyBallsMain.cpp:162-259 | for a sphere that fits, every index names a vertex and there are at most 2^16 vertices, so the `u16` casts never truncate |
| SphereMesh.SphereVertexSlots | BouncyBalls/BouncyBallsMain.cpp:176-211 | the loops fill the slots in the reference layout |
| SphereMesh.SphereIndexBuffer | BouncyBalls/BouncyBallsMain.cpp:231-259 | the loops write the reference index list |
| SphereMesh.WriteCaps | BouncyBalls/BouncyBallsMain.cpp:231-239 | the cap loop writes the caps into the first 6 * slices slots |
| SphereMesh.WriteBands | BouncyBalls/BouncyBallsMain.cpp:241-259 | after the caps the band loop fills the rest of the buffer with the reference indices |
| SphereMesh.WriteBandRow | BouncyBalls/BouncyBallsMain.cpp:243-258 | one band row appends its reference indices after what is written |
| BouncyBalls.MakeSphereMesh | BouncyBalls/BouncyBallsMain.cpp:157-267 | for a sphere that fits: the reference layout and index list, with counts equal to the `u32` formulas, every index naming a vertex and at most 2^16 vertices |
| Volumetrics.CreateSphere | Volumetrics/Volumetrics.cpp:26-105 | the same sphere under the guard `indexCount < USHORT_MAX` |
| Volumetrics.CreateVolume | Volumetrics/Volumetrics.cpp:107-148 | 24 vertices and 36 indices, all drawn, each naming a vertex |
| Volumetrics.OutwardIsNormal | Volumetrics/Volumetrics.cpp:121-141 | the triple product test is the same as the triangle's right-hand normal pointing away from the centre |
| Volumetrics.FaceQuadAt | Volumetrics/Volumetrics.cpp:121-129 | face f is row f of the vertex table |
| Volumetrics.FaceIndices | Volumetrics/Volumetrics.cpp:133-141 | row f of the index table is the two triangles over face f's own four vertices, sharing a diagonal |
| Volumetrics.FacePlane | Volumetrics/Volumetrics.cpp:111-129 | the four vertices of each face lie in that face's plane |
| Volumetrics.FaceTriangleOutward | Volumetrics/Volumetrics.cpp:121-141 | both triangles of each face, read off its four vertices, face away from the centre |
| Volumetrics.VolumeWinding | Volumetrics/Volumetrics.cpp:121-141 | every triangle of the index buffer faces away from the centre, so one cull mode removes the same side of every face |
| Volumetrics.FirstTriangle | Volumetrics/Volumetrics.cpp:135-140 | the first triangle of a face takes its third, second and first vertex |
| Volumetrics.SecondTriangle | Volumetrics/Volumetrics.cpp:135-140 | the second takes its first, fourth and third |
| Volumetrics.FacePlanesDistinct | Volumetrics/Volumetrics.cpp:111-129 | the six faces lie in six different planes |

## Left out

- Logging is left out: the `LOG*` messages and `CheckGltfSupport`'s warnings only print.
- `ENSUREMSG` (Utils/Logging.cpp:79-87, or `!!(x)` under `FAST_ENSURES`, Utils/Logging.h:16) is modelled as returning its condition. The `__debugbreak()` it executes on a false condition is left out.
- `ASSERTMSG` (Utils/Logging.cpp:89-97) breaks into the debugger and then executes `assert(0)`. The one at BouncyBalls/BouncyBallsMain.cpp:162 becomes a precondition of `BouncyBalls.MakeSphereMesh`, and the `assert` at Volumetrics/Volumetrics.cpp:31 becomes a precondition of `Volumetrics.CreateSphere`. Both use the corrected `SphereFits` form, which also demands at least two stacks (see "## Findings").
- The `ASSERTMSG`s of `FindOrCreateTexture` under `RG_VALIDATION` (Utils/RenderGraph/RenderGraph.cpp:47 and 63) are left out. The model goes on and returns what the code returns when the assertion is compiled out.
- The array-kind and size `ASSERTMSG`s of the vector and matrix parses (Utils/GltfLoader.cpp:68-69, 77-78 and 86-87) are left out. With them compiled out, the model reads the entries as its total `Item` conversion gives them.
- Under `RG_VALIDATION`, `AssertResourceUnique` becomes a precondition of the `Add*`/`ReadResource` methods. The other validation asserts are left out.
- GPU objects are left out. Textures, views, vertex and index buffers and command lists are handles or calls recorded on a `Device` trace. The device answers from fixed oracles.
- `Textures_GetSurfaceInfo`, `Textures_BitsPerPixel` and the DX10 format decoding are parameters of the model, because they are not part of this model.
- The JSON text parser (rapidjson) is a parameter that maps bytes to a document or to nothing.
- Reading files (`LoadBinaryFile`) is a parameter that maps a path to its bytes.
- Floating-point vertex values are left out. The sphere's positions, normals, tangents and texture coordinates become one symbolic slot per vertex: a pole, or ring and slice. The four streams share that layout.
- The render-graph callbacks' own work is left out. `Execute` records one invocation per pass it calls. An empty callback throws `std::bad_function_call`; the model reports that throw and stops there, and does not model the exception propagating to the caller.
- `RenderGraph::GetTexture` is declared in `RenderGraph.h:105` but never defined, so it has no model.
- The `GetSRV`/`GetRTV`/`GetDSV`/`GetUAV`/`GetResourceDimensions` getters are modelled as plain field reads and have no contract worth stating.
- RenderGraphObject.RenderGraph.Build: realises the corrected used list (`UsedHandles`, each handle once) where RenderGraph.cpp:384 keeps the list `std::unique` leaves (`UsedAsWritten`). On the sample frame the source asks the device for four textures and the model for two. It also appends the corrected islands (`Islands`) where RenderGraph.cpp:314-345 pushes the as-written masks (`MergeAsWritten`). Both as-written halves are rows of "## Findings".
- RenderGraphObject.RenderGraph.BuildTextures: realises the corrected used list in place of the as-written one, as `Build` does.
- RenderGraphObject.RenderGraph.PlanPasses: appends the corrected islands in place of the as-written masks, as `Build` does.
- RenderGraphObject.Analyse: returns the corrected islands. The assertion at RenderGraph.cpp:343 is not a precondition, because the inputs that break it are the first finding. The model does not prove that the as-written masks equal the corrected ones on the inputs where that assertion holds.
- RenderGraphIslands.MergeIslands: runs the corrected relabelling merge, not the as-written one at RenderGraph.cpp:314-333.
- GltfDocument.GltfOf: reads `extensionsRequired` from the `"extensionsRequired"` key, where GltfLoader.cpp:436 reads `"extensionsUsed"` (`ExtensionsRequiredAsWritten`, the third finding). The other fields are as written.
- GltfDocument.GltfParseDocument: reads the `"extensionsRequired"` key for `extensionsRequired`, as `GltfOf` does.
- GltfGlb.LoadGlb: parses the document with `GltfOf`, so it carries the corrected `extensionsRequired`. It also checks every chunk read against the file size, which is the fourth finding's correction.
- GltfGlb.LoadWrittenGlb: its document is `GltfOf`'s, with the corrected `extensionsRequired`.
- GltfGlb.GltfLoaderLoad: its output is `LoadGlb`'s, with the corrected `extensionsRequired` and the bounds checks.
- `RenderGraphObject.RenderGraph.Build` requires at most 64 roots. The affinity masks are `uint64_t` shifts, so more roots would overflow, and the model does not capture that overflow.
- DdsCreate.ShapeDx10: the description's fields are unbounded integers, so the cube multiplication `desc.arraySize *= 6` (Utils/DDSTextureLoader.cpp:552) is not reduced. The field width of `TextureCreateDescEx` is declared in a header that is not part of this model. If that field is 32 bits wide, a DX10 cube with array size 0x2AAAAAAB wraps to 2 and passes the 2048 bound, while the model rejects it as too large. `DdsProperties.Dx10Bounds` and `DdsProperties.DescribeWithinBounds` state the bounds of this unbounded reading.
- The `assert(Textures_BitsPerPixel(format) != 0)` at the end of the legacy branch (Utils/DDSTextureLoader.cpp:609) is left out. `DdsCreate.ShapeLegacy` and `DdsCreate.Bound` carry on as if the assertion were compiled out, and the model does not constrain the `bitsPerPixel` oracle.
- With `slices = 0` the index vector is empty, and taking `&indices.front()` (BouncyBalls/BouncyBallsMain.cpp:174, Volumetrics/Volumetrics.cpp:40) is undefined behaviour, an abort under checked iterators. The model does not capture it: `SphereFits(0, stacks, limit)` holds, and `BouncyBalls.MakeSphereMesh` and `Volumetrics.CreateSphere` then return a mesh with only the pole vertices and no indices. The one call in the sources, `MakeSphereMesh(8, 8)` at BouncyBalls/BouncyBallsMain.cpp:330, passes 8 slices.
- DdsCreate.CreateFromDds: the `flags` parameter of CreateTextureFromDDS (Utils/DDSTextureLoader.cpp:499) is ignored by the code, so the model has no such parameter. The request always carries the SRV flag (line 686) and, as both formats, the description's format (lines 673-674).
- `RenderGraphNodes.BuildNodes` requires fewer than 1024 distinct resources. This is the `assert` at RenderGraph.cpp:220.
- Accessor `max`/`min` fill arrays whose capacity is fixed in `GltfLoader.h`, which is not part of this model. The numbers are read as a list.
- The GLB `length` header field is never checked by the loader, and the model does not check it either.
- `sizeof(jsonChunk)` at GltfLoader.cpp:495 is the size of a pointer. The model assumes a 64-bit target, where that equals the chunk header's 8 bytes.
- The glTF array and member parses treat the JSON value kinds (`GetString`, `GetUint`, …) as total conversions. What rapidjson does on a kind mismatch is not modelled.

## Findings

| source | as written | input that shows it | evidently intended | confidence | as-written member | corrected member |
|---|---|---|---|---|---|---|
| Utils/RenderGraph/RenderGraph.cpp:314-345 | merging two roots relabels only those two roots, not the other members of an absorbed island, and `std::unique` removes only adjacent duplicate labels, so one island can be pushed twice | three roots where only roots 0 and 2 touch: the masks are {0,2}, {1}, {0,2}, which overlap, so the assertion at line 343 fails | one mask per connected group of roots, the masks pairwise disjoint | not executed | RenderGraphIslands.MergeAsWrittenOverlaps | RenderGraphIslands.IslandsMeaning |
| Utils/RenderGraph/RenderGraph.cpp:384 | `std::unique` on the flattened handle list removes only adjacent duplicates | the sample frame: its list 2, 1, 2, 0, 2, 0 keeps colour three times, so from an empty cache the device is asked to create four textures where two are needed | each used handle realised once | not executed | RenderGraphDemo.DemoRealise | RenderGraphBuild.UsedOnce |
| Utils/GltfLoader.cpp:436 | `extensionsRequired` is filled from the `"extensionsUsed"` key | a document using A and B and requiring only A reports A and B as required | read the `"extensionsRequired"` key | not executed | GltfDocument.RequiredReadFromUsed | GltfDocument.ExtensionsRequiredMeaning |
| Utils/GltfLoader.cpp:469-527 | the chunk headers, the JSON text and the binary chunk are read without checking them against the file size | a GLB file holding only a JSON chunk, which the container allows: the binary chunk's header is read past the end of the file | reject a file that does not hold the chunks it announces | not executed | GltfGlb.JsonOnlyReadsPastEnd | GltfGlb.LoadWrittenGlb |
| BouncyBalls/BouncyBallsMain.cpp:159-162 | the index count is computed in `u32`, and the guard only bounds it from above | `stacks = 1`: `stacks - 2u` wraps and the count becomes 0, the guard passes, and the cap loop writes `6 * slices` indices into an empty buffer | refuse spheres with fewer than two stacks or whose exact count exceeds the 16-bit limit | not executed | SphereMesh.OneStackOverruns | SphereMesh.FittingCountsAgree |

The same wrap-around and the same guard appear in `CreateSphere` (Volumetrics/Volumetrics.cpp:28-31). `Volumetrics.CreateSphere` uses the corrected guard, as `BouncyBalls.MakeSphereMesh` does.

The first name registered gets handle 0, and handle 0 equals `RenderGraphResource_t::NONE`. So the duplicate check at RenderGraph.cpp:123 does not refuse that name a second time (`RenderGraphRegistry.FirstNameRegisteredTwice`). The sample registers each name once, and the model keeps the check as written.
