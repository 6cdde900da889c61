/** `scan_for_plans`: the wall signs of a structure's volume that begin with
    `#` become the structure's function plans, keyed by position. */
module PlanScan {
  import opened Wrappers
  import opened Strings
  import opened Voxels
  import opened Plans
  import opened DataValues

  /** A block as `world.getBlock` returns it: its name, its properties and the
      payloads of its NBT tags by tag name. */
  datatype WorldBlock = WorldBlock(name: string, properties: seq<Property>, tags: map<string, string>)

  /** The world: a position holds a block or nothing (`getBlock` returns `None`). */
  type World = map<Coord, WorldBlock>

  /** Plans keyed by the position of the sign that declared them. */
  type PlanMap = map<Coord, Plan>

  /** The key of the implicit identity plan. */
  const IdentityPosition: Coord := Coord(0, -1, 0)

  /** The plans a scan starts from: the identity plan alone. */
  const InitialPlans: PlanMap := map[IdentityPosition := IdentityPlan]

  /** The name test for a sign: a substring test, so namespaced or suffixed
      names such as `minecraft:wall_sign_spruce` count too. */
  const WallSign: string := "minecraft:wall_sign"

  /** The prefix of an explicit identity plan's text. */
  const ExplicitIdentityPrefix: string := "#0,"

  predicate IsWallSign(world: World, c: Coord) {
    c in world && Contains(world[c].name, WallSign)
  }

  /** A wall sign whose text begins with `#`: a plan. */
  predicate IsPlanSign(world: World, c: Coord) {
    IsWallSign(world, c) && "Text" in world[c].tags && StartsWith(world[c].tags["Text"], "#")
  }

  /** A plan sign whose text begins with `#0,`: it replaces the implicit identity plan. */
  predicate IsIdentitySign(world: World, c: Coord) {
    IsPlanSign(world, c) && StartsWith(world[c].tags["Text"], ExplicitIdentityPrefix)
  }

  /** One step of the scan at `c`. A wall sign without a `Text` tag is a
      `KeyError`; a `#0,` sign deletes the identity plan, which is a
      `KeyError` once it is already gone; the deletion happens before the
      sign's own text is parsed. */
  function Visit(world: World, c: Coord, plans: PlanMap): (r: Result<PlanMap, Exception>)
    ensures !IsWallSign(world, c) ==> r == Success(plans)
    ensures IsWallSign(world, c) && "Text" !in world[c].tags ==> r == Failure(KeyError("Text"))
    ensures IsWallSign(world, c) && "Text" in world[c].tags && !IsPlanSign(world, c) ==> r == Success(plans)
    ensures r.Success? && IsPlanSign(world, c) ==>
              r.value.Keys == (if IsIdentitySign(world, c) then plans.Keys - {IdentityPosition} else plans.Keys) + {c}
              && ParsePlan(world[c].tags["Text"]) == Success(r.value[c])
              && forall k :: k in r.value && k != c ==> k in plans && r.value[k] == plans[k]
  {
    if !IsWallSign(world, c) then Success(plans)
    else if "Text" !in world[c].tags then Failure(KeyError("Text"))
    else
      var text := world[c].tags["Text"];
      if !StartsWith(text, "#") then Success(plans)
      else
        var kept :- if !StartsWith(text, ExplicitIdentityPrefix) then Success(plans)
                    else if IdentityPosition in plans then Success(plans - {IdentityPosition})
                    else Failure(KeyError("(0, -1, 0)"));
        var plan :- ParsePlan(text);
        Success(kept[c := plan])
  }

  /** The scan loop over `coords`, in order; the first exception ends it. */
  function Collect(world: World, coords: seq<Coord>, plans: PlanMap): (r: Result<PlanMap, Exception>)
    ensures r.Success? ==> forall k :: k in r.value ==> k in plans || k in coords
    ensures r.Failure? ==> exists i :: 0 <= i < |coords| && IsWallSign(world, coords[i])
    decreases |coords|
  {
    if |coords| == 0 then Success(plans)
    else
      var next :- Visit(world, coords[0], plans);
      Collect(world, coords[1..], next)
  }

  /** `scan_for_plans(world, lower, upper)`. */
  function ScanForPlans(world: World, lo: Coord, hi: Coord): (r: Result<PlanMap, Exception>)
    ensures r.Success? ==> forall k :: k in r.value && k != IdentityPosition ==> InBox(k, lo, hi)
    ensures r.Failure? ==> exists c :: InBox(c, lo, hi) && IsWallSign(world, c)
  {
    ScanVolumeMembers(lo, hi);
    Collect(world, ScanVolume(lo, hi), InitialPlans)
  }

  // ---------------------------------------------------------------------------
  // The loop.

  /** Every key the scan adds is a plan sign it visited, parsed from the sign's
      text; every other key comes unchanged from where the scan started. */
  lemma {:induction false} CollectKeys(world: World, coords: seq<Coord>, plans: PlanMap)
    requires Collect(world, coords, plans).Success?
    ensures var r := Collect(world, coords, plans).value;
            forall k :: k in r ==>
              (k in coords && IsPlanSign(world, k) && ParsePlan(world[k].tags["Text"]) == Success(r[k]))
              || (k in plans && r[k] == plans[k])
    decreases |coords|
  {
    if |coords| > 0 {
      var next := Visit(world, coords[0], plans).value;
      CollectKeys(world, coords[1..], next);
    }
  }

  /** Every plan sign the scan visits, other than one at the identity key,
      ends up a key holding the plan parsed from its text. */
  lemma {:induction false} CollectFindsSigns(world: World, coords: seq<Coord>, plans: PlanMap)
    requires Collect(world, coords, plans).Success?
    ensures var r := Collect(world, coords, plans).value;
            forall k :: k in coords && k != IdentityPosition && IsPlanSign(world, k) ==>
              k in r && ParsePlan(world[k].tags["Text"]) == Success(r[k])
    decreases |coords|
  {
    if |coords| > 0 {
      var next := Visit(world, coords[0], plans).value;
      CollectFindsSigns(world, coords[1..], next);
      if coords[0] != IdentityPosition && IsPlanSign(world, coords[0]) {
        CollectKeeps(world, coords[1..], next, coords[0]);
      }
    }
  }

  /** Once a key other than the identity key is present, the rest of the scan keeps it. */
  lemma {:induction false} CollectKeeps(world: World, coords: seq<Coord>, plans: PlanMap, k: Coord)
    requires Collect(world, coords, plans).Success?
    requires k in plans && k != IdentityPosition
    ensures var r := Collect(world, coords, plans).value;
            k in r && (k !in coords ==> r[k] == plans[k])
            && (k in coords && IsPlanSign(world, k) ==> ParsePlan(world[k].tags["Text"]) == Success(r[k]))
    decreases |coords|
  {
    if |coords| > 0 {
      var next := Visit(world, coords[0], plans).value;
      CollectKeeps(world, coords[1..], next, k);
      if k in coords[1..] && IsPlanSign(world, k) {
      } else if k == coords[0] && IsPlanSign(world, k) {
        CollectKeys(world, coords[1..], next);
      }
    }
  }

  /** When the identity key is not itself a plan sign the scan visits, it
      survives exactly when it was there at the start and no `#0,` sign is
      visited, and it then keeps its plan. */
  lemma {:induction false} CollectIdentity(world: World, coords: seq<Coord>, plans: PlanMap)
    requires Collect(world, coords, plans).Success?
    requires !(IdentityPosition in coords && IsPlanSign(world, IdentityPosition))
    ensures var r := Collect(world, coords, plans).value;
            (IdentityPosition in r <==>
               IdentityPosition in plans && forall c :: c in coords ==> !IsIdentitySign(world, c))
            && (IdentityPosition in r ==> r[IdentityPosition] == plans[IdentityPosition])
    decreases |coords|
  {
    if |coords| > 0 {
      var next := Visit(world, coords[0], plans).value;
      CollectIdentity(world, coords[1..], next);
      assert forall c :: c in coords <==> c == coords[0] || c in coords[1..];
    }
  }

  /** A scan over positions holding no wall sign changes nothing. */
  lemma {:induction false} CollectNoSigns(world: World, coords: seq<Coord>, plans: PlanMap)
    requires forall i :: 0 <= i < |coords| ==> !IsWallSign(world, coords[i])
    ensures Collect(world, coords, plans) == Success(plans)
    decreases |coords|
  {
    if |coords| > 0 {
      CollectNoSigns(world, coords[1..], plans);
    }
  }

  // ---------------------------------------------------------------------------
  // The scan.

  /** The plans of a volume: apart from the identity key, the keys are exactly
      the plan signs of the volume, each holding the plan its text parses to. */
  lemma ScanForPlansKeys(world: World, lo: Coord, hi: Coord)
    requires ScanForPlans(world, lo, hi).Success?
    ensures var r := ScanForPlans(world, lo, hi).value;
            forall k :: k != IdentityPosition ==>
              (k in r <==> InBox(k, lo, hi) && IsPlanSign(world, k))
              && (k in r ==> ParsePlan(world[k].tags["Text"]) == Success(r[k]))
  {
    ScanVolumeMembers(lo, hi);
    CollectKeys(world, ScanVolume(lo, hi), InitialPlans);
    CollectFindsSigns(world, ScanVolume(lo, hi), InitialPlans);
  }

  /** Unless a plan sign sits at the identity key itself, the identity plan is
      present exactly when the volume holds no `#0,` sign, and it is then the
      default plan. A volume whose lower `y` is not negative never holds the
      identity key. */
  lemma ScanForPlansIdentity(world: World, lo: Coord, hi: Coord)
    requires ScanForPlans(world, lo, hi).Success?
    requires !(InBox(IdentityPosition, lo, hi) && IsPlanSign(world, IdentityPosition))
    ensures var r := ScanForPlans(world, lo, hi).value;
            (IdentityPosition in r <==> forall c :: InBox(c, lo, hi) ==> !IsIdentitySign(world, c))
            && (IdentityPosition in r ==> r[IdentityPosition] == IdentityPlan)
  {
    ScanVolumeMembers(lo, hi);
    CollectIdentity(world, ScanVolume(lo, hi), InitialPlans);
  }

  /** A volume with no wall sign gives the identity plan alone: one function. */
  lemma ScanForPlansNoSigns(world: World, lo: Coord, hi: Coord)
    requires forall c :: InBox(c, lo, hi) ==> !IsWallSign(world, c)
    ensures ScanForPlans(world, lo, hi) == Success(map[IdentityPosition := IdentityPlan])
  {
    ScanVolumeMembers(lo, hi);
    var coords := ScanVolume(lo, hi);
    assert forall i :: 0 <= i < |coords| ==> coords[i] in coords;
    CollectNoSigns(world, coords, InitialPlans);
  }

  /** A wall sign without a `Text` tag is an error, whatever comes before it. */
  lemma {:induction false} CollectMissingText(world: World, coords: seq<Coord>, plans: PlanMap, i: nat)
    requires i < |coords| && IsWallSign(world, coords[i]) && "Text" !in world[coords[i]].tags
    ensures Collect(world, coords, plans).Failure?
    decreases i
  {
    if i > 0 {
      var next := Visit(world, coords[0], plans);
      if next.Success? {
        CollectMissingText(world, coords[1..], next.value, i - 1);
      }
    }
  }

  /** Two `#0,` signs that are not at the identity key make the scan fail:
      the second finds the identity plan already deleted. */
  lemma {:induction false} CollectTwoIdentitySigns(world: World, coords: seq<Coord>, plans: PlanMap, i: nat, j: nat)
    requires i < j < |coords|
    requires IsIdentitySign(world, coords[i]) && IsIdentitySign(world, coords[j])
    requires coords[i] != IdentityPosition && coords[j] != IdentityPosition
    requires forall m :: 0 <= m < |coords| ==> coords[m] != IdentityPosition
    ensures Collect(world, coords, plans).Failure?
    decreases i
  {
    var next := Visit(world, coords[0], plans);
    if next.Success? {
      if i > 0 {
        CollectTwoIdentitySigns(world, coords[1..], next.value, i - 1, j - 1);
      } else {
        assert IdentityPosition !in next.value;
        CollectNoIdentity(world, coords[1..], next.value, j - 1);
      }
    }
  }

  /** Without the identity key and without a plan sign at it, a `#0,` sign is an error. */
  lemma {:induction false} CollectNoIdentity(world: World, coords: seq<Coord>, plans: PlanMap, j: nat)
    requires j < |coords| && IsIdentitySign(world, coords[j])
    requires IdentityPosition !in plans
    requires forall m :: 0 <= m < |coords| ==> coords[m] != IdentityPosition
    ensures Collect(world, coords, plans).Failure?
    decreases j
  {
    var next := Visit(world, coords[0], plans);
    if next.Success? && j > 0 {
      CollectNoIdentity(world, coords[1..], next.value, j - 1);
    }
  }
}
