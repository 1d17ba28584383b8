/** The King of Cups god: target selection over the map's locations, the power
    dispatch and the per-location turn loop. Neither depends on layers. */
module KingOfCups {
  import opened Wrappers
  import opened Lists
  import opened Locations

  /** A location may be targeted whenever it exists, on either layer. */
  function IsValidTarget(location: Option<Location>): (valid: bool)
    ensures valid <==> location.Some?
  {
    location.Some?
  }

  /** Every surface and every underground location is a valid target, and an
      absent one is not. */
  lemma EveryLayerTargetable(location: Location)
    ensures !IsValidTarget(None)
    ensures location.hex.Some? && IsUndergroundHex(location.hex.value) ==> IsValidTarget(Some(location))
    ensures location.hex.Some? && !IsUndergroundHex(location.hex.value) ==> IsValidTarget(Some(location))
  {
  }

  /** The targets collected from the map's location list. */
  method GetValidTargets(locations: seq<Option<Location>>) returns (targets: seq<Location>)
    ensures targets == Somes(locations)
    ensures forall l :: multiset(targets)[l] == multiset(locations)[Some(l)]
    ensures IsSubsequence(Lift(targets), locations)
  {
    targets := [];
    var i := 0;
    while i < |locations|
      invariant 0 <= i <= |locations|
      invariant targets == Somes(locations[..i])
    {
      var location := locations[i];
      assert locations[..i + 1] == locations[..i] + [location];
      SomesAppend(locations[..i], [location]);
      if location.Some? && IsValidTarget(location) {
        targets := targets + [location.value];
      }
      i := i + 1;
    }
    assert locations[..i] == locations;
    SomesCount(locations);
    SomesIsSubsequence(locations);
  }

  /** The god's powers. */
  datatype Power = SpreadFaith | BuildCrypt

  /** The power index that selects each power. */
  function PowerIndex(p: Power): int
  {
    match p
    case SpreadFaith => 0
    case BuildCrypt => 1
  }

  /** The power dispatch: which power hook runs, if any. */
  function ExecutePower(target: Option<Location>, powerIndex: int): (invoked: Option<Power>)
    ensures target.None? ==> invoked.None?
    ensures invoked.Some? ==> target.Some? && PowerIndex(invoked.value) == powerIndex
    ensures target.Some? && (powerIndex == 0 || powerIndex == 1) ==> invoked.Some?
  {
    if target.None? then None
    else if powerIndex == 0 then Some(SpreadFaith)
    else if powerIndex == 1 then Some(BuildCrypt)
    else None
  }

  /** Each power is reached through its own index, on any target, and its index
      reaches nothing else. */
  lemma ExecutePowerRoundTrip(target: Location, p: Power, powerIndex: int)
    ensures ExecutePower(Some(target), PowerIndex(p)) == Some(p)
    ensures ExecutePower(Some(target), powerIndex) == Some(p) ==> powerIndex == PowerIndex(p)
  {
  }

  /** The dispatch does not depend on the target's layer. */
  lemma ExecutePowerIgnoresLayer(a: Location, b: Location, powerIndex: int)
    ensures ExecutePower(Some(a), powerIndex) == ExecutePower(Some(b), powerIndex)
  {
  }

  /** The god's turn: returns, in order, the locations `processLocationTurnTick`
      is called on. */
  method TurnTick(locations: seq<Option<Location>>) returns (processed: seq<Location>)
    ensures processed == Somes(locations)
    ensures forall l :: multiset(processed)[l] == multiset(locations)[Some(l)]
    ensures IsSubsequence(Lift(processed), locations)
  {
    processed := [];
    var i := 0;
    while i < |locations|
      invariant 0 <= i <= |locations|
      invariant processed == Somes(locations[..i])
    {
      var location := locations[i];
      assert locations[..i + 1] == locations[..i] + [location];
      SomesAppend(locations[..i], [location]);
      if location.Some? {
        processed := processed + [location.value];
      }
      i := i + 1;
    }
    assert locations[..i] == locations;
    SomesCount(locations);
    SomesIsSubsequence(locations);
  }
}
