# IxthusFix layer logic in Dafny

IxthusFix is a game mod that adds the King of Cups god, its Crypt settlement
and its agent Gawain, made aware of the game's two map layers: a hex whose
`z` is negative lies underground, any other hex lies on the surface. This
project models the layer-aware decisions of those classes and proves what
they promise:

- Gawain's movement gate, layer-transition check, path request, visibility
  filter and per-turn layer dispatch (module `Gawain`);
- the Crypt's surface-only layer rule, placement validator, same-layer
  neighbour effects and build-progress guard (module `Crypt`);
- the god's target selection, power dispatch and per-location turn loop
  (module `KingOfCups`);
- the mod kernel's once-only startup and its declared dependency lists
  (module `Kernel`).

A null reference the code tests for is a `Wrappers.Option`. A location (`Locations.Location`) has
an optional hex, an optional settlement and a feature list whose entries may be
absent. What the game's base classes compute (`base.canMoveTo`,
`base.getPathTo`, `base.getVisibleLocations`, `base.isLocationValid`,
`base.getBuildProgress`) enters as a parameter holding that result, and
`Location.isNeighbour` as a relation parameter. The unit's overridable flags
`canTraverseLayers` and `canSeeThroughLayers` and the feature test
`providesUndergroundAccess` are the fields of `Gawain.Abilities`; the lemmas take the setting as a
parameter, except `Gawain.ShippedHasNoTransitionAccess`, which is about the
shipped setting `Gawain.Shipped` (all false). The hooks whose bodies are empty or only log (`applyEffectToNeighbor`,
`processLocationTurnTick`, `processUndergroundTurnTick`,
`processSurfaceTurnTick`, `executePower_*`) are modelled only by which of them
runs on what: the methods return the sequence of locations a hook is
called on, and the functions return the hook chosen.

The `foreach` loops of the source are methods with loops proved against
specification functions: the feature search of `Gawain.HasLayerTransitionAccess`
against the existential `Gawain.TransitionAccess`, and the others against
`Lists.Filter` (entries satisfying a test, in order)
and `Lists.Somes` (the non-null entries, in order), whose lemmas in `Lists`
prove that they keep order (`IsSubsequence`) and keep every qualifying entry
exactly as often as it occurs (multiset counts). The kernel's static flag is
the field of a `ModKernel` object whose `OnStartup` is tied to the pure step
`Kernel.Startup`; `Kernel.Run` replays any sequence of calls.

Where the code and its own comments differ, the model follows the code:
- the comments of `findLayerTransitionPath` describe a route search through
  an entrance; the code returns an empty list, so every cross-layer path
  request yields the empty path, even for a unit that may traverse layers;
- the comments of `providesUndergroundAccess` ask for a check of the actual
  entrance feature types; the code returns false for every feature, so the
  test is a parameter here.

The model also keeps these behaviours of the code as written:
- a cross-layer move is checked only against `isNeighbour` and the origin's
  features; the destination's features play no part;
- the visibility filter works on the base class's list, keeps its order, and
  returns that list unchanged (null entries included) when the unit's own
  location or hex is unknown.

## Model

| member | source | states |
|---|---|---|
| `Locations.LayerOf` | IxthusFix/IxthusFix/Set_Crypt.cs:74 | the layer index is -1 or 0, and -1 exactly for an underground hex (`z < 0`) |
| `Gawain.DifferentLayer` | IxthusFix/IxthusFix/UAE_Gawain.cs:36-40 | "different layer" holds iff both hexes are known and their layer indices differ; an unknown hex on either side means same layer |
| `Gawain.HasLayerTransitionAccess` | IxthusFix/IxthusFix/UAE_Gawain.cs:74-95 | the feature search answers true iff both ends and both hexes are known, the ends are neighbours, and some present feature of the origin opens a passage |
| `Gawain.ShippedHasNoTransitionAccess` | IxthusFix/IxthusFix/UAE_Gawain.cs:233-238 | with the shipped feature test no pair of locations has transition access |
| `Gawain.CanMoveTo` | IxthusFix/IxthusFix/UAE_Gawain.cs:30-58 | false for a null target or a null own location; true only if the base rule allows; on the same layer exactly the base rule; across layers exactly traversal ability, transition access and the base rule together |
| `Gawain.NoTraversalNoCrossing` | IxthusFix/IxthusFix/UAE_Gawain.cs:42-48 | a unit without traversal ability, the shipped one included, never moves across layers |
| `Gawain.CrossingThroughEntrance` | IxthusFix/IxthusFix/UAE_Gawain.cs:42-57 | a unit with traversal ability moves to a neighbour on the other layer when an origin feature opens a passage and the base rule allows |
| `Gawain.GetPathTo` | IxthusFix/IxthusFix/UAE_Gawain.cs:100-139 | the empty path for a null target and for every cross-layer target; otherwise the base path; any non-empty result is the base path |
| `Gawain.GetVisibleLocations` | IxthusFix/IxthusFix/UAE_Gawain.cs:144-179 | the result is a subsequence of the base list; unchanged when the unit's location or hex is unknown; otherwise every kept entry has a hex, on the unit's layer unless the unit sees through layers, and every entry not hidden is kept as often as it occurs |
| `Gawain.TurnTick` | IxthusFix/IxthusFix/UAE_Gawain.cs:184-204 | the underground hook runs iff the hex is known and underground, the surface hook iff it is known and on the surface, neither iff the location or hex is unknown |
| `Crypt.LayerRuleMatchesFlags` | IxthusFix/IxthusFix/Set_Crypt.cs:31-61 | the layer rule (only layer index 0 is valid) accepts a hex iff it is not underground; the crypt is not underground, may stand on the surface and not underground, and the rule accepts a hex iff the flag for its layer allows it |
| `Crypt.IsLocationValid` | IxthusFix/IxthusFix/Set_Crypt.cs:66-85 | false for a null location, an occupied one and an underground one; true only if the base rule allows; for an unoccupied location that is on the surface or has no hex, exactly the base rule |
| `Crypt.ProcessCryptEffects` | IxthusFix/IxthusFix/Set_Crypt.cs:101-121 | no neighbour is affected when the crypt's hex is unknown; otherwise the affected neighbours are the present ones whose hex has the crypt's exact `z`, in neighbour order, each as often as it is listed, and no other |
| `Crypt.TurnTick` | IxthusFix/IxthusFix/Set_Crypt.cs:90-99 | no effect without a location; otherwise the effect pass's same-layer neighbours |
| `Crypt.GetBuildProgress` | IxthusFix/IxthusFix/Set_Crypt.cs:132-146 | 0 when the hex is known and underground, the base value otherwise |
| `Crypt.ValidPlacementKeepsProgress` | IxthusFix/IxthusFix/Set_Crypt.cs:66-146 | a location the validator accepts never has its progress suppressed, and suppressed progress implies the validator refuses the location |
| `KingOfCups.EveryLayerTargetable` | IxthusFix/IxthusFix/God_KingofCups.cs:73-80 | a location is a valid target iff it is present, whatever its layer: surface and underground locations alike are valid, an absent one is not |
| `KingOfCups.GetValidTargets` | IxthusFix/IxthusFix/God_KingofCups.cs:55-68 | the targets are exactly the non-null map locations, each as often as it occurs, in map order |
| `KingOfCups.ExecutePower` | IxthusFix/IxthusFix/God_KingofCups.cs:85-118 | no power for a null target; a power runs only on a present target and only for its own index; indices 0 and 1 always run one |
| `KingOfCups.ExecutePowerRoundTrip` | IxthusFix/IxthusFix/God_KingofCups.cs:104-117 | index 0 runs spread-faith and index 1 build-crypt, and a power is reached through no other index |
| `KingOfCups.ExecutePowerIgnoresLayer` | IxthusFix/IxthusFix/God_KingofCups.cs:93-117 | the dispatch is the same for every present target, whatever its layer |
| `KingOfCups.TurnTick` | IxthusFix/IxthusFix/God_KingofCups.cs:136-148 | the per-location hook runs once for each non-null location occurrence, in map order, and never for a null entry |
| `Kernel.Startup` | IxthusFix/IxthusFix/ModKernel.cs:40-79 | after completion a call does nothing; a null map leaves the flag clear and calls nothing; otherwise `addGod` is called, and the flag is set if and only if it does not throw |
| `Kernel.ModKernel.constructor` | IxthusFix/IxthusFix/ModKernel.cs:14 | the startup flag starts clear |
| `Kernel.ModKernel.OnStartup` | IxthusFix/IxthusFix/ModKernel.cs:40-79 | the call invokes `addGod` and updates the flag exactly as `Startup` says |
| `Kernel.RunNeverResets` | IxthusFix/IxthusFix/ModKernel.cs:42-46 | over any sequence of calls, once the flag is set it stays set |
| `Kernel.NoAddGodAfterCompletion` | IxthusFix/IxthusFix/ModKernel.cs:42-46 | no call after the one that set the flag invokes `addGod` |
| `Kernel.RegisteredAtMostOnce` | IxthusFix/IxthusFix/ModKernel.cs:59-72 | over any sequence of calls at most one registration succeeds, and none once startup had completed |
| `Kernel.RetryCompletes` | IxthusFix/IxthusFix/ModKernel.cs:56-78 | after any number of calls that left the flag clear (null maps or a throwing `addGod`), a call with a map whose `addGod` does not throw completes startup |
| `Kernel.DeclaredMods` | IxthusFix/IxthusFix/ModKernel.cs:84-97 | no dependencies, and exactly "Ixthus" and "King of Cups" as incompatible mods |
| `Lists.FilterIsSubsequence` | IxthusFix/IxthusFix/UAE_Gawain.cs:153-165 | removing entries as `RemoveAll` does keeps the remaining ones in order |
| `Lists.FilterCount` | IxthusFix/IxthusFix/UAE_Gawain.cs:153-165 | every entry that is not removed is kept as often as it occurs, and no removed entry stays |

## Left out

- The base classes and the game engine (`Unit`, `SettlementHuman`, `God`, `Map`, `Location.getNeighbours`, `Location.isNeighbour`, all `base.*` calls): foreign code; their results are parameters, and the `base.turnTick` call that each `turnTick` makes first is not modelled.
- Real cross-layer pathfinding: the source's `findLayerTransitionPath` returns an empty list, and so does `Gawain.FindLayerTransitionPath`.
- Gawain.GetVisibleLocations: `RemoveAll` changes the list returned by the base class in place; the model returns the filtered list as a new value, so aliasing of the base class's list is not modelled.
- Crypt.IsLocationValid: the base rule is a value, so the model does not show that it is not consulted for an underground location; with a pure base rule this is not observable. The same holds for Gawain.CanMoveTo (`base.canMoveTo` is skipped after a cross-layer denial), Gawain.GetPathTo (`base.getPathTo` is skipped for a cross-layer target) and Crypt.GetBuildProgress (`base.getBuildProgress` is skipped on an invalid layer).
- Kernel.ModKernel.OnStartup: the flag is static in C#, shared by all kernel objects; the model has one kernel object. An exception from `new God_KingofCups()` is not distinguished from one thrown by `addGod`: either leaves the flag clear.
- Console and debug logging, including the underground-target message of `executePower`, and exception messages: output only.
- Names, descriptions, creeds, mod metadata, sprites and `getChallenges`: constants or pass-throughs without decisions.
- `powerCostFactor` and the numeric build progress: floating point; progress is an opaque `real` apart from the 0 case.
- The bodies of the hooks: empty or only log; only which hook runs, on what and how often, is modelled.
- Maps and lists the code uses without a null test (`map.locations` in `getValidTargets` and `turnTick` of the god, `from.properties.features` in `hasLayerTransitionAccess`, `location.getNeighbours()` in `processCryptEffects`, and the base list in `getVisibleLocations`): a null there throws NullReferenceException in C#; the model takes them as plain sequences.
