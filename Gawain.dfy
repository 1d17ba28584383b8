/** Gawain, the King of Cups' agent: the layer-aware overrides of the unit's
    movement gate, transition check, path request, visibility filter and turn
    dispatch. Results of the base unit class are parameters. */
module Gawain {
  import opened Wrappers
  import opened Lists
  import opened Locations

  /** The unit's overridable layer capabilities and the feature test that
      decides whether a feature opens a passage between layers. */
  datatype Abilities = Abilities(
    canTraverseLayers: bool,
    canSeeThroughLayers: bool,
    providesAccess: Feature -> bool)

  /** The shipped feature test: no feature type is recognised as an entrance. */
  function ProvidesUndergroundAccess(f: Feature): bool
  {
    false
  }

  /** The capabilities as shipped: no layer traversal, no sight across layers. */
  const Shipped: Abilities := Abilities(false, false, ProvidesUndergroundAccess)

  /** The game's adjacency relation `Location.isNeighbour`. */
  type NeighbourRelation = (Location, Location) -> bool

  /** Two hexes are on different layers when both are known and exactly one of
      them is underground; an unknown hex counts as the same layer. */
  function DifferentLayer(a: Option<Hex>, b: Option<Hex>): (different: bool)
    ensures different <==> a.Some? && b.Some? && LayerOf(a.value) != LayerOf(b.value)
  {
    if a.Some? && b.Some? then
      SameLayerIffSameSide(a.value, b.value);
      (a.value.z < 0) != (b.value.z < 0)
    else false
  }

  /** Some present feature in the list opens a passage. */
  predicate OffersTransition(features: seq<Option<Feature>>, providesAccess: Feature -> bool)
  {
    exists i :: 0 <= i < |features| && features[i].Some? && providesAccess(features[i].value)
  }

  /** What `hasLayerTransitionAccess` decides: both ends and hexes known, the ends
      adjacent, and some feature of the origin opening a passage. */
  predicate TransitionAccess(
    from: Option<Location>, to: Option<Location>,
    isNeighbour: NeighbourRelation, providesAccess: Feature -> bool)
  {
    && from.Some? && to.Some?
    && from.value.hex.Some? && to.value.hex.Some?
    && isNeighbour(from.value, to.value)
    && OffersTransition(from.value.features, providesAccess)
  }

  /** The early-return search over the origin's features. */
  method HasLayerTransitionAccess(
    from: Option<Location>, to: Option<Location>,
    isNeighbour: NeighbourRelation, providesAccess: Feature -> bool)
    returns (access: bool)
    ensures access == TransitionAccess(from, to, isNeighbour, providesAccess)
  {
    if from.None? || to.None? {
      return false;
    }
    if from.value.hex.None? || to.value.hex.None? {
      return false;
    }
    if !isNeighbour(from.value, to.value) {
      return false;
    }
    var features := from.value.features;
    var i := 0;
    while i < |features|
      invariant 0 <= i <= |features|
      invariant forall j :: 0 <= j < i ==> !(features[j].Some? && providesAccess(features[j].value))
    {
      var feature := features[i];
      if feature.Some? && providesAccess(feature.value) {
        return true;
      }
      i := i + 1;
    }
    return false;
  }

  /** With the shipped feature test no pair of locations is ever linked. */
  lemma ShippedHasNoTransitionAccess(from: Option<Location>, to: Option<Location>, isNeighbour: NeighbourRelation)
    ensures !TransitionAccess(from, to, isNeighbour, Shipped.providesAccess)
  {
  }

  /** The movement gate. `baseCanMoveTo` is the base unit's verdict for `target`. */
  function CanMoveTo(
    abilities: Abilities, here: Option<Location>, target: Option<Location>,
    isNeighbour: NeighbourRelation, baseCanMoveTo: bool): (allowed: bool)
    ensures target.None? || here.None? ==> !allowed
    ensures allowed ==> baseCanMoveTo
    ensures here.Some? && target.Some? && !DifferentLayer(here.value.hex, target.value.hex) ==>
              allowed == baseCanMoveTo
    ensures here.Some? && target.Some? && DifferentLayer(here.value.hex, target.value.hex) ==>
              (allowed <==> abilities.canTraverseLayers
                            && TransitionAccess(here, target, isNeighbour, abilities.providesAccess)
                            && baseCanMoveTo)
  {
    if target.None? then false
    else if here.None? then false
    else if DifferentLayer(here.value.hex, target.value.hex)
            && (!abilities.canTraverseLayers
                || !TransitionAccess(here, target, isNeighbour, abilities.providesAccess))
    then false
    else baseCanMoveTo
  }

  /** A unit that cannot traverse layers never crosses them, whatever the base
      rule and the features say; the shipped unit is such a unit. */
  lemma NoTraversalNoCrossing(
    abilities: Abilities, here: Option<Location>, target: Option<Location>,
    isNeighbour: NeighbourRelation, baseCanMoveTo: bool)
    requires !abilities.canTraverseLayers
    requires here.Some? && target.Some? && DifferentLayer(here.value.hex, target.value.hex)
    ensures !CanMoveTo(abilities, here, target, isNeighbour, baseCanMoveTo)
    ensures !CanMoveTo(Shipped, here, target, isNeighbour, baseCanMoveTo)
  {
  }

  /** A unit that can traverse layers crosses between adjacent locations through
      an origin feature that opens a passage, whenever the base rule allows. */
  lemma CrossingThroughEntrance(
    abilities: Abilities, here: Location, target: Location,
    isNeighbour: NeighbourRelation, k: nat)
    requires abilities.canTraverseLayers
    requires here.hex.Some? && target.hex.Some?
    requires isNeighbour(here, target)
    requires k < |here.features| && here.features[k].Some?
    requires abilities.providesAccess(here.features[k].value)
    ensures CanMoveTo(abilities, Some(here), Some(target), isNeighbour, true)
  {
  }

  /** The cross-layer route search as shipped: it finds no route. */
  function FindLayerTransitionPath(target: Location): seq<Location>
  {
    []
  }

  /** The path request. `basePath` is the base unit's same-layer route. */
  function GetPathTo(here: Option<Location>, target: Option<Location>, basePath: seq<Location>): (path: seq<Location>)
    ensures target.None? ==> path == []
    ensures here.Some? && target.Some? && DifferentLayer(here.value.hex, target.value.hex) ==> path == []
    ensures target.Some? && !(here.Some? && DifferentLayer(here.value.hex, target.value.hex)) ==>
              path == basePath
    ensures path != [] ==> path == basePath
  {
    if target.None? then []
    else if here.Some? && here.value.hex.Some? && target.value.hex.Some?
            && (here.value.hex.value.z < 0) != (target.value.hex.value.z < 0)
    then FindLayerTransitionPath(target.value)
    else basePath
  }

  /** The entries `getVisibleLocations` removes for a unit on `currentLayer`. */
  predicate HiddenFrom(currentLayer: int, canSeeThroughLayers: bool, loc: Option<Location>)
  {
    || loc.None?
    || loc.value.hex.None?
    || (LayerOf(loc.value.hex.value) != currentLayer && !canSeeThroughLayers)
  }

  /** The visibility filter over the base unit's visible list. */
  function GetVisibleLocations(
    abilities: Abilities, here: Option<Location>, baseVisible: seq<Option<Location>>)
    : (visible: seq<Option<Location>>)
    ensures IsSubsequence(visible, baseVisible)
    ensures here.None? || here.value.hex.None? ==> visible == baseVisible
    ensures here.Some? && here.value.hex.Some? ==>
              forall i :: 0 <= i < |visible| ==>
                && visible[i].Some? && visible[i].value.hex.Some?
                && (!abilities.canSeeThroughLayers ==>
                      LayerOf(visible[i].value.hex.value) == LayerOf(here.value.hex.value))
    ensures here.Some? && here.value.hex.Some? ==>
              forall loc :: multiset(visible)[loc] ==
                if HiddenFrom(LayerOf(here.value.hex.value), abilities.canSeeThroughLayers, loc)
                then 0 else multiset(baseVisible)[loc]
  {
    if here.Some? && here.value.hex.Some? then
      var currentLayer := LayerOf(here.value.hex.value);
      var keep := (loc: Option<Location>) => !HiddenFrom(currentLayer, abilities.canSeeThroughLayers, loc);
      FilterIsSubsequence(baseVisible, keep);
      FilterCount(baseVisible, keep);
      Filter(baseVisible, keep)
    else
      SubsequenceReflexive(baseVisible);
      baseVisible
  }

  /** The layer-specific turn hooks. */
  datatype LayerTurnHook = UndergroundTurnTick | SurfaceTurnTick

  /** Which layer-specific hook `turnTick` runs after the base turn. */
  function TurnTick(here: Option<Location>): (hook: Option<LayerTurnHook>)
    ensures hook == Some(UndergroundTurnTick) <==>
              here.Some? && here.value.hex.Some? && IsUndergroundHex(here.value.hex.value)
    ensures hook == Some(SurfaceTurnTick) <==>
              here.Some? && here.value.hex.Some? && !IsUndergroundHex(here.value.hex.value)
    ensures hook.None? <==> here.None? || here.value.hex.None?
  {
    if here.Some? && here.value.hex.Some? then
      if here.value.hex.value.z < 0 then Some(UndergroundTurnTick) else Some(SurfaceTurnTick)
    else None
  }
}
