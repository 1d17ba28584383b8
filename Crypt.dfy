/** The Crypt settlement: a surface-only structure. Its layer rule, placement
    validator, same-layer neighbour effects and build-progress guard. Results
    of the base settlement class are parameters. */
module Crypt {
  import opened Wrappers
  import opened Lists
  import opened Locations

  /** The layer rule: only layer index 0, the surface, is valid. */
  function IsLayerValid(layer: int): (valid: bool)
    ensures valid <==> layer == 0
  {
    layer == 0
  }

  /** The settlement's layer flags. */
  function IsUnderground(): bool { false }
  function CanBeOnSurface(): bool { true }
  function CanBeUnderground(): bool { false }

  /** The layer rule and the flags describe the same constraint: a hex is
      accepted exactly when the flag for its layer allows the crypt there. */
  lemma LayerRuleMatchesFlags(h: Hex)
    ensures IsLayerValid(LayerOf(h)) <==> !IsUndergroundHex(h)
    ensures IsLayerValid(LayerOf(h)) <==>
              (if IsUndergroundHex(h) then CanBeUnderground() else CanBeOnSurface())
    ensures !IsUnderground() && CanBeOnSurface() && !CanBeUnderground()
  {
  }

  /** The placement validator. `baseValid` is the base settlement's verdict. */
  function IsLocationValid(location: Option<Location>, baseValid: bool): (valid: bool)
    ensures location.None? ==> !valid
    ensures location.Some? && location.value.settlement.Some? ==> !valid
    ensures location.Some? && location.value.hex.Some? && IsUndergroundHex(location.value.hex.value) ==> !valid
    ensures valid ==> baseValid
    ensures location.Some? && location.value.settlement.None?
            && (location.value.hex.None? || !IsUndergroundHex(location.value.hex.value)) ==>
              valid == baseValid
  {
    if location.None? then false
    else if location.value.settlement.Some? then false
    else if location.value.hex.Some? && !IsLayerValid(LayerOf(location.value.hex.value)) then false
    else baseValid
  }

  /** A neighbour the crypt affects: its hex is known and has the crypt's `z`. */
  predicate OnSameLayer(cryptHex: Hex, neighbour: Location)
  {
    neighbour.hex.Some? && neighbour.hex.value.z == cryptHex.z
  }

  /** The neighbours that receive the crypt's effect, in neighbour order. */
  function SameLayerNeighbours(cryptHex: Hex, neighbours: seq<Option<Location>>): seq<Location>
  {
    Filter(Somes(neighbours), (n: Location) => OnSameLayer(cryptHex, n))
  }

  lemma SameLayerNeighboursAppend(cryptHex: Hex, a: seq<Option<Location>>, b: seq<Option<Location>>)
    ensures SameLayerNeighbours(cryptHex, a + b) ==
              SameLayerNeighbours(cryptHex, a) + SameLayerNeighbours(cryptHex, b)
  {
    SomesAppend(a, b);
    FilterAppend(Somes(a), Somes(b), (n: Location) => OnSameLayer(cryptHex, n));
  }

  /** The crypt's effect pass over its location's neighbours: returns, in order,
      the neighbours `applyEffectToNeighbor` is called on. */
  method ProcessCryptEffects(crypt: Location, neighbours: seq<Option<Location>>)
    returns (affected: seq<Location>)
    ensures crypt.hex.None? ==> affected == []
    ensures crypt.hex.Some? ==> affected == SameLayerNeighbours(crypt.hex.value, neighbours)
    ensures crypt.hex.Some? ==>
              forall n :: multiset(affected)[n] ==
                if OnSameLayer(crypt.hex.value, n) then multiset(neighbours)[Some(n)] else 0
    ensures IsSubsequence(affected, Somes(neighbours))
  {
    affected := [];
    if crypt.hex.None? {
      assert IsSubsequence(affected, Somes(neighbours));
      return;
    }
    var cryptHex := crypt.hex.value;
    var i := 0;
    while i < |neighbours|
      invariant 0 <= i <= |neighbours|
      invariant affected == SameLayerNeighbours(cryptHex, neighbours[..i])
    {
      var neighbour := neighbours[i];
      assert neighbours[..i + 1] == neighbours[..i] + [neighbour];
      SameLayerNeighboursAppend(cryptHex, neighbours[..i], [neighbour]);
      if neighbour.Some? {
        if neighbour.value.hex.Some? && neighbour.value.hex.value.z == cryptHex.z {
          affected := affected + [neighbour.value];
        }
      }
      i := i + 1;
    }
    assert neighbours[..i] == neighbours;
    var keep := (n: Location) => OnSameLayer(cryptHex, n);
    SomesCount(neighbours);
    FilterCount(Somes(neighbours), keep);
    FilterIsSubsequence(Somes(neighbours), keep);
  }

  /** The crypt's turn: nothing happens without a location, otherwise the effect
      pass runs. Returns the neighbours that receive the effect. */
  method TurnTick(location: Option<Location>, neighbours: seq<Option<Location>>)
    returns (affected: seq<Location>)
    ensures location.None? ==> affected == []
    ensures location.Some? && location.value.hex.None? ==> affected == []
    ensures location.Some? && location.value.hex.Some? ==>
              affected == SameLayerNeighbours(location.value.hex.value, neighbours)
  {
    if location.None? {
      return [];
    }
    affected := ProcessCryptEffects(location.value, neighbours);
  }

  /** The build-progress guard. `baseProgress` is the base settlement's value. */
  function GetBuildProgress(location: Option<Location>, baseProgress: real): (progress: real)
    ensures location.Some? && location.value.hex.Some? && IsUndergroundHex(location.value.hex.value) ==>
              progress == 0.0
    ensures !(location.Some? && location.value.hex.Some? && IsUndergroundHex(location.value.hex.value)) ==>
              progress == baseProgress
  {
    if location.Some? && location.value.hex.Some?
       && !IsLayerValid(LayerOf(location.value.hex.value))
    then 0.0
    else baseProgress
  }

  /** A crypt on a location the validator accepts never has its progress
      suppressed, and one whose progress is suppressed stands where the
      validator would refuse it. */
  lemma ValidPlacementKeepsProgress(location: Option<Location>, baseValid: bool, baseProgress: real)
    ensures IsLocationValid(location, baseValid) ==> GetBuildProgress(location, baseProgress) == baseProgress
    ensures baseProgress != 0.0 && GetBuildProgress(location, baseProgress) == 0.0 ==>
              !IsLocationValid(location, baseValid)
  {
  }
}
