/** The Bedrock converter's pipeline for one structure block: the voxels it
    hands to the fill merger, the optional priority sort of the fills, and the
    fills each plan writes after its air filter, rotation and transmutation. */
module Bedrock {
  import opened Wrappers
  import opened Strings
  import opened Sorting
  import opened Voxels
  import opened Rotation
  import opened Plans
  import opened DataValues
  import opened PlanScan

  /** The converter's settings: `data_value_map`, `strip_namespace`,
      `rotation_groups` and the optional `order_values`. */
  datatype Settings = Settings(dataValueMap: DataValueMap, stripNamespace: bool,
                               rotationGroups: seq<seq<string>>, orderValues: Option<map<string, int>>)

  /** A voxel handed to the fill merger: its position relative to the volume's
      lower corner and its fill names. */
  datatype Voxel = Voxel(pos: Coord, names: seq<string>)

  /** A fill as the merger hands it back, named by a fill-name list. */
  type NamedFill = Fill<seq<string>>

  /** The arguments of one `write_fill` call, apart from the file and the origin. */
  datatype Placement = Placement(lo: Coord, hi: Coord, name: string)

  /** The fill merger: voxels and the volume's side lengths to fills. */
  type Merge = (seq<Voxel>, Coord) -> seq<NamedFill>

  /** The name of an air fill, `AIR`. */
  const Air: seq<string> := ["air"]

  /** The priority of a name missing from `order_values`. */
  const DefaultOrder: int := 50

  function AsBlock(b: WorldBlock): Block {
    Block(b.name, b.properties)
  }

  // ---------------------------------------------------------------------------
  // generate_volume

  /** A block is resolvable when `get_block_name` raises nothing for it. */
  predicate Resolvable(settings: Settings, rgm: RotationGroupMap, world: World, c: Coord) {
    c !in world || GetBlockName(settings.stripNamespace, settings.dataValueMap, rgm, AsBlock(world[c])).Success?
  }

  /** A block that is placed: present, resolvable to names, and not a plan. */
  predicate Placed(settings: Settings, rgm: RotationGroupMap, world: World, plans: set<Coord>, c: Coord) {
    c in world && c !in plans
    && var r := GetBlockName(settings.stripNamespace, settings.dataValueMap, rgm, AsBlock(world[c]));
       r.Success? && r.value.Some?
  }

  /** The voxel `generate_volume` yields at `c`, if any: the block's names are
      computed first, so their errors surface even for a plan's position. */
  function BlockVoxel(settings: Settings, rgm: RotationGroupMap, world: World, lo: Coord, plans: set<Coord>, c: Coord)
    : (r: Result<Option<Voxel>, Exception>)
    ensures r.Success? <==> Resolvable(settings, rgm, world, c)
    ensures r.Success? && r.value.None? ==> !Placed(settings, rgm, world, plans, c)
    ensures r.Success? && r.value.Some? ==>
              c in world && c !in plans && r.value.value.pos.Plus(lo) == c
              && GetBlockName(settings.stripNamespace, settings.dataValueMap, rgm, AsBlock(world[c]))
                 == Success(Some(r.value.value.names))
  {
    if c !in world then Success(None)
    else
      var names :- GetBlockName(settings.stripNamespace, settings.dataValueMap, rgm, AsBlock(world[c]));
      if names.None? || c in plans then Success(None)
      else Success(Some(Voxel(c.Minus(lo), names.value)))
  }

  /** The generator over `coords`, in order. */
  function GenerateFrom(settings: Settings, rgm: RotationGroupMap, world: World, lo: Coord, plans: set<Coord>,
                        coords: seq<Coord>)
    : (r: Result<seq<Voxel>, Exception>)
    ensures r.Success? ==> |r.value| <= |coords|
    ensures r.Success? ==> forall v :: v in r.value ==> exists i :: 0 <= i < |coords| && v.pos == coords[i].Minus(lo)
    ensures r.Failure? ==> exists i :: 0 <= i < |coords| && !Resolvable(settings, rgm, world, coords[i])
    decreases |coords|
  {
    if |coords| == 0 then Success([])
    else
      var v :- BlockVoxel(settings, rgm, world, lo, plans, coords[0]);
      var rest :- GenerateFrom(settings, rgm, world, lo, plans, coords[1..]);
      Success((if v.Some? then [v.value] else []) + rest)
  }

  /** `generate_volume(lower, upper, plans)`. */
  function GenerateVolume(settings: Settings, rgm: RotationGroupMap, world: World, lo: Coord, hi: Coord,
                          plans: set<Coord>)
    : (r: Result<seq<Voxel>, Exception>)
    ensures r.Success? ==> forall v :: v in r.value ==> InBox(v.pos.Plus(lo), lo, hi)
    ensures r.Failure? ==> exists c :: InBox(c, lo, hi) && !Resolvable(settings, rgm, world, c)
  {
    ScanVolumeMembers(lo, hi);
    GenerateFrom(settings, rgm, world, lo, plans, ScanVolume(lo, hi))
  }

  /** The generator fails exactly when some visited block is not resolvable. */
  lemma {:induction false} GenerateFromSuccess(settings: Settings, rgm: RotationGroupMap, world: World, lo: Coord,
                                               plans: set<Coord>, coords: seq<Coord>)
    ensures GenerateFrom(settings, rgm, world, lo, plans, coords).Success?
        <==> forall i :: 0 <= i < |coords| ==> Resolvable(settings, rgm, world, coords[i])
    decreases |coords|
  {
    if |coords| > 0 {
      GenerateFromSuccess(settings, rgm, world, lo, plans, coords[1..]);
      assert forall i :: 1 <= i < |coords| ==> coords[i] == coords[1..][i - 1];
    }
  }

  /** Every voxel the generator yields is a placed block it visited, at its
      relative position and with its names. */
  lemma {:induction false} GenerateFromSound(settings: Settings, rgm: RotationGroupMap, world: World, lo: Coord,
                                             plans: set<Coord>, coords: seq<Coord>)
    requires GenerateFrom(settings, rgm, world, lo, plans, coords).Success?
    ensures forall v :: v in GenerateFrom(settings, rgm, world, lo, plans, coords).value ==>
              v.pos.Plus(lo) in coords && Placed(settings, rgm, world, plans, v.pos.Plus(lo))
              && GetBlockName(settings.stripNamespace, settings.dataValueMap, rgm, AsBlock(world[v.pos.Plus(lo)]))
                 == Success(Some(v.names))
    decreases |coords|
  {
    if |coords| > 0 {
      var v := BlockVoxel(settings, rgm, world, lo, plans, coords[0]).value;
      var rest := GenerateFrom(settings, rgm, world, lo, plans, coords[1..]).value;
      GenerateFromSound(settings, rgm, world, lo, plans, coords[1..]);
      assert GenerateFrom(settings, rgm, world, lo, plans, coords).value == (if v.Some? then [v.value] else []) + rest;
      assert forall x :: x in coords[1..] ==> x in coords;
    }
  }

  /** Every placed block the generator visits is yielded, at its relative
      position and with its names. */
  lemma {:induction false} GenerateFromComplete(settings: Settings, rgm: RotationGroupMap, world: World, lo: Coord,
                                                plans: set<Coord>, coords: seq<Coord>)
    requires GenerateFrom(settings, rgm, world, lo, plans, coords).Success?
    ensures forall c :: c in coords && Placed(settings, rgm, world, plans, c) ==>
              Voxel(c.Minus(lo), GetBlockName(settings.stripNamespace, settings.dataValueMap, rgm,
                                              AsBlock(world[c])).value.value)
              in GenerateFrom(settings, rgm, world, lo, plans, coords).value
    decreases |coords|
  {
    if |coords| > 0 {
      var c := coords[0];
      var v := BlockVoxel(settings, rgm, world, lo, plans, c).value;
      var rest := GenerateFrom(settings, rgm, world, lo, plans, coords[1..]).value;
      GenerateFromComplete(settings, rgm, world, lo, plans, coords[1..]);
      assert GenerateFrom(settings, rgm, world, lo, plans, coords).value == (if v.Some? then [v.value] else []) + rest;
      assert forall x :: x in coords ==> x == c || x in coords[1..];
    }
  }

  /** `generate_volume` over a volume: a voxel for each placed block of the
      box, at its position relative to the lower corner; plan positions and
      blocks named `None` are left out. */
  lemma GenerateVolumeMembers(settings: Settings, rgm: RotationGroupMap, world: World, lo: Coord, hi: Coord,
                              plans: set<Coord>)
    ensures var r := GenerateVolume(settings, rgm, world, lo, hi, plans);
            r.Success? <==> forall c :: InBox(c, lo, hi) ==> Resolvable(settings, rgm, world, c)
    ensures var r := GenerateVolume(settings, rgm, world, lo, hi, plans);
            r.Success? ==>
              (forall v :: v in r.value ==>
                 InBox(v.pos.Plus(lo), lo, hi) && Placed(settings, rgm, world, plans, v.pos.Plus(lo)))
              && (forall c :: InBox(c, lo, hi) && Placed(settings, rgm, world, plans, c) ==>
                    Voxel(c.Minus(lo), GetBlockName(settings.stripNamespace, settings.dataValueMap, rgm,
                                                    AsBlock(world[c])).value.value) in r.value)
  {
    ScanVolumeMembers(lo, hi);
    var coords := ScanVolume(lo, hi);
    GenerateFromSuccess(settings, rgm, world, lo, plans, coords);
    assert forall c :: InBox(c, lo, hi) <==> c in coords;
    assert forall i :: 0 <= i < |coords| ==> coords[i] in coords;
    if GenerateVolume(settings, rgm, world, lo, hi, plans).Success? {
      GenerateFromSound(settings, rgm, world, lo, plans, coords);
      GenerateFromComplete(settings, rgm, world, lo, plans, coords);
    }
  }

  // ---------------------------------------------------------------------------
  // The order sort.

  /** `f[2][0].split()[0]`: the block name of a fill's first name, if it has one. */
  function FillKey(f: NamedFill): (r: Option<string>)
    ensures r.Some? <==> |f.name| > 0 && |Words(f.name[0])| > 0
    ensures r.Some? ==> |r.value| > 0 && NoSpace(r.value) && r.value == Words(f.name[0])[0]
  {
    if |f.name| == 0 then None
    else
      var words := Words(f.name[0]);
      if |words| == 0 then None
      else Some(words[0])
  }

  /** `order_values.get(key, 50)`; a fill without a key never reaches it. */
  function Priority(orderValues: map<string, int>, f: NamedFill): int {
    match FillKey(f)
    case Some(k) => if k in orderValues then orderValues[k] else DefaultOrder
    case None => DefaultOrder
  }

  function PriorityKey(orderValues: map<string, int>): NamedFill -> int {
    f => Priority(orderValues, f)
  }

  /** The order sort: with `order_values` set, the fills sorted stably by the
      priority of their block name; a fill without one is an `IndexError`. */
  function OrderFills(orderValues: Option<map<string, int>>, fills: seq<NamedFill>)
    : (r: Result<seq<NamedFill>, Exception>)
    ensures orderValues.None? ==> r == Success(fills)
    ensures orderValues.Some? ==>
              (r.Success? <==> forall i :: 0 <= i < |fills| ==> FillKey(fills[i]).Some?)
    ensures r.Success? ==> multiset(r.value) == multiset(fills)
    ensures r.Success? && orderValues.Some? ==> SortedBy(r.value, PriorityKey(orderValues.value))
  {
    match orderValues
    case None => Success(fills)
    case Some(ov) =>
      if forall i :: 0 <= i < |fills| ==> FillKey(fills[i]).Some? then Success(SortBy(fills, PriorityKey(ov)))
      else Failure(IndexError)
  }

  /** The sort is stable: fills of equal priority keep their merge order. */
  lemma OrderFillsStable(orderValues: map<string, int>, fills: seq<NamedFill>, k: int)
    requires OrderFills(Some(orderValues), fills).Success?
    ensures WithKey(OrderFills(Some(orderValues), fills).value, PriorityKey(orderValues), k)
         == WithKey(fills, PriorityKey(orderValues), k)
  {
    SortByStable(fills, PriorityKey(orderValues), k);
  }

  /** Fills whose priorities already ascend are left as they are. */
  lemma OrderFillsSorted(orderValues: map<string, int>, fills: seq<NamedFill>)
    requires OrderFills(Some(orderValues), fills).Success?
    requires SortedBy(fills, PriorityKey(orderValues))
    ensures OrderFills(Some(orderValues), fills) == Success(fills)
  {
    SortBySorted(fills, PriorityKey(orderValues));
  }

  // ---------------------------------------------------------------------------
  // The per-plan fills.

  /** The air filter: an air fill is written only when the plan voids air. */
  predicate KeepFill(plan: Plan, f: NamedFill) {
    f.name != Air || plan.doAir
  }

  /** The fills a plan writes, in order. */
  function KeptFills(plan: Plan, fills: seq<NamedFill>): (r: seq<NamedFill>)
    ensures forall i :: 0 <= i < |r| ==> KeepFill(plan, r[i]) && r[i] in fills
    decreases |fills|
  {
    if |fills| == 0 then []
    else (if KeepFill(plan, fills[0]) then [fills[0]] else []) + KeptFills(plan, fills[1..])
  }

  /** One `write_fill` call: both corners rotated, then the name transmuted,
      in Python's argument order; a rotation outside the matrix table is an
      `IndexError` and an empty name list a `ZeroDivisionError`. */
  function EmitFill(plan: Plan, origin: Coord, f: NamedFill): (r: Result<Placement, Exception>)
    ensures r.Success? <==> -4 <= plan.rotation < 4 && |f.name| > 0
    ensures r.Failure? ==> r.error == (if -4 <= plan.rotation < 4 then ZeroDivisionError else IndexError)
    ensures r.Success? ==>
              r.value.lo == QuarterTurns(plan.rotation % 4, f.lo, origin)
              && r.value.hi == QuarterTurns(plan.rotation % 4, f.hi, origin)
              && r.value.name == Transmute(plan, f.name)
  {
    match Rotate(plan.rotation, f.lo, origin)
    case None => Failure(IndexError)
    case Some(lo) =>
      match Rotate(plan.rotation, f.hi, origin)
      case None => Failure(IndexError)
      case Some(hi) =>
        if |f.name| == 0 then Failure(ZeroDivisionError)
        else
          RotateIsQuarterTurns(plan.rotation, f.lo, origin);
          RotateIsQuarterTurns(plan.rotation, f.hi, origin);
          Success(Placement(lo, hi, Transmute(plan, f.name)))
  }

  /** The fills of one plan's function file. */
  function EmitPlan(plan: Plan, origin: Coord, fills: seq<NamedFill>): (r: Result<seq<Placement>, Exception>)
    ensures r.Success? ==> |r.value| <= |fills|
    ensures r.Failure? ==> r.error == IndexError || r.error == ZeroDivisionError
    decreases |fills|
  {
    if |fills| == 0 then Success([])
    else if !KeepFill(plan, fills[0]) then EmitPlan(plan, origin, fills[1..])
    else
      var p :- EmitFill(plan, origin, fills[0]);
      var rest :- EmitPlan(plan, origin, fills[1..]);
      Success([p] + rest)
  }

  predicate AllEmit(plan: Plan, origin: Coord, fills: seq<NamedFill>) {
    forall i :: 0 <= i < |fills| ==> EmitFill(plan, origin, fills[i]).Success?
  }

  lemma AllEmitCons(plan: Plan, origin: Coord, f: NamedFill, fills: seq<NamedFill>)
    ensures AllEmit(plan, origin, [f] + fills) <==> EmitFill(plan, origin, f).Success? && AllEmit(plan, origin, fills)
  {
    var all := [f] + fills;
    assert all[0] == f;
    if AllEmit(plan, origin, all) {
      forall i | 0 <= i < |fills| ensures EmitFill(plan, origin, fills[i]).Success? {
        assert all[i + 1] == fills[i];
      }
    }
    if EmitFill(plan, origin, f).Success? && AllEmit(plan, origin, fills) {
      forall i | 0 <= i < |all| ensures EmitFill(plan, origin, all[i]).Success? {
        if i > 0 {
          assert all[i] == fills[i - 1];
        }
      }
    }
  }

  /** A plan fails exactly when one of the fills it keeps fails. */
  lemma {:induction false} EmitPlanSuccess(plan: Plan, origin: Coord, fills: seq<NamedFill>)
    ensures EmitPlan(plan, origin, fills).Success? <==> AllEmit(plan, origin, KeptFills(plan, fills))
    ensures EmitPlan(plan, origin, fills).Failure? ==>
              EmitPlan(plan, origin, fills).error == (if -4 <= plan.rotation < 4 then ZeroDivisionError else IndexError)
    decreases |fills|
  {
    if |fills| > 0 {
      EmitPlanSuccess(plan, origin, fills[1..]);
      var kept, tail := KeptFills(plan, fills), KeptFills(plan, fills[1..]);
      if KeepFill(plan, fills[0]) {
        assert kept == [fills[0]] + tail;
        AllEmitCons(plan, origin, fills[0], tail);
        assert EmitPlan(plan, origin, fills).Success?
           <==> EmitFill(plan, origin, fills[0]).Success? && EmitPlan(plan, origin, fills[1..]).Success?;
      } else {
        assert kept == tail;
        assert EmitPlan(plan, origin, fills) == EmitPlan(plan, origin, fills[1..]);
      }
    }
  }

  /** A plan writes one fill per kept fill, in order, each the rotated and
      transmuted kept fill. */
  lemma {:induction false} EmitPlanIsMap(plan: Plan, origin: Coord, fills: seq<NamedFill>)
    requires EmitPlan(plan, origin, fills).Success?
    ensures var r, kept := EmitPlan(plan, origin, fills).value, KeptFills(plan, fills);
            |r| == |kept| && forall i :: 0 <= i < |kept| ==> EmitFill(plan, origin, kept[i]) == Success(r[i])
    decreases |fills|
  {
    if |fills| > 0 {
      EmitPlanIsMap(plan, origin, fills[1..]);
      var kept, tail := KeptFills(plan, fills), KeptFills(plan, fills[1..]);
      if KeepFill(plan, fills[0]) {
        assert kept == [fills[0]] + tail;
      } else {
        assert kept == tail;
      }
    }
  }

  /** Air suppression: a plan that does not void air writes no air fill, and
      every other fill is written; a plan that voids air writes every fill. */
  lemma {:induction false} KeptFillsAir(plan: Plan, fills: seq<NamedFill>)
    ensures !plan.doAir ==> forall i :: 0 <= i < |KeptFills(plan, fills)| ==> KeptFills(plan, fills)[i].name != Air
    ensures forall f :: f in fills && f.name != Air ==> f in KeptFills(plan, fills)
    ensures plan.doAir ==> KeptFills(plan, fills) == fills
    decreases |fills|
  {
    if |fills| > 0 {
      KeptFillsAir(plan, fills[1..]);
      assert forall f :: f in fills <==> f == fills[0] || f in fills[1..];
      if plan.doAir {
        assert fills == [fills[0]] + fills[1..];
      }
    }
  }

  /** A plan whose rotation the matrix table accepts writes every fill whose
      name list is not empty. */
  lemma EmitPlanSucceeds(plan: Plan, origin: Coord, fills: seq<NamedFill>)
    requires -4 <= plan.rotation < 4
    requires forall i :: 0 <= i < |fills| ==> |fills[i].name| > 0
    ensures EmitPlan(plan, origin, fills).Success?
  {
    EmitPlanSuccess(plan, origin, fills);
    var kept := KeptFills(plan, fills);
    forall i | 0 <= i < |kept| ensures EmitFill(plan, origin, kept[i]).Success? {
      var j :| 0 <= j < |fills| && fills[j] == kept[i];
    }
  }

  // ---------------------------------------------------------------------------
  // convert_structure_block

  /** A function file: its name and the fills written to it. */
  datatype FunctionFile = FunctionFile(fileName: string, placements: seq<Placement>)

  /** The outcome of converting one structure block: the origin every fill is
      written relative to, and one file per plan, keyed by the plan's position;
      a plan whose fills fail keeps its exception. */
  datatype Conversion = Conversion(origin: Coord, files: map<Coord, Result<FunctionFile, Exception>>)

  /** `f'{structure_name}.{plan.name}.mcfunction'`. */
  function FunctionFileName(structureName: string, plan: Plan): string {
    structureName + "." + plan.name + ".mcfunction"
  }

  function PlanFile(structureName: string, plan: Plan, origin: Coord, fills: seq<NamedFill>)
    : (r: Result<FunctionFile, Exception>)
    ensures r.Success? ==> r.value.fileName == FunctionFileName(structureName, plan)
    ensures r.Success? <==> EmitPlan(plan, origin, fills).Success?
  {
    var placements :- EmitPlan(plan, origin, fills);
    Success(FunctionFile(FunctionFileName(structureName, plan), placements))
  }

  /** The fills of a structure block's volume, ordered, for the given plans:
      the voxels of the volume merged into fills and sorted when an order is
      set. */
  function StructureFills(world: World, settings: Settings, lo: Coord, hi: Coord, plans: PlanMap, merge: Merge)
    : (r: Result<seq<NamedFill>, Exception>)
    ensures var voxels := GenerateVolume(settings, RotationGroupMapOf(settings.rotationGroups), world, lo, hi, plans.Keys);
            r.Success? ==> voxels.Success? && multiset(r.value) == multiset(merge(voxels.value, VolumeDims(lo, hi)))
    ensures settings.orderValues.None? ==>
              (r.Success? <==> GenerateVolume(settings, RotationGroupMapOf(settings.rotationGroups), world, lo, hi, plans.Keys).Success?)
  {
    var rgm := RotationGroupMapOf(settings.rotationGroups);
    var voxels :- GenerateVolume(settings, rgm, world, lo, hi, plans.Keys);
    OrderFills(settings.orderValues, merge(voxels, VolumeDims(lo, hi)))
  }

  /** `convert_structure_block`: the structure's name after its namespace,
      its plans, its ordered fills, and a function file per plan. The origin
      is the structure block's own position relative to the volume's lower
      corner. */
  function ConvertStructureBlock(world: World, settings: Settings, sb: StructureBlock, merge: Merge)
    : (r: Result<Conversion, Exception>)
    ensures r.Success? ==> r.value.origin.Plus(StructureBlockVolume(sb).0) == sb.pos
    ensures r.Success? ==>
              var v := StructureBlockVolume(sb);
              StripNamespace(sb.structureName).Success?
              && ScanForPlans(world, v.0, v.1).Success?
              && var plans := ScanForPlans(world, v.0, v.1).value;
                 StructureFills(world, settings, v.0, v.1, plans, merge).Success?
                 && r.value.files.Keys == plans.Keys
                 && forall k :: k in plans ==>
                      r.value.files[k] == PlanFile(StripNamespace(sb.structureName).value, plans[k], r.value.origin,
                                                   StructureFills(world, settings, v.0, v.1, plans, merge).value)
    ensures var v := StructureBlockVolume(sb);
            r.Success? <==>
              (StripNamespace(sb.structureName).Success?
               && ScanForPlans(world, v.0, v.1).Success?
               && StructureFills(world, settings, v.0, v.1, ScanForPlans(world, v.0, v.1).value, merge).Success?)
  {
    var structureName :- StripNamespace(sb.structureName);
    var volume := StructureBlockVolume(sb);
    var plans :- ScanForPlans(world, volume.0, volume.1);
    var ordered :- StructureFills(world, settings, volume.0, volume.1, plans, merge);
    var origin := Coord(-sb.offset.x, -sb.offset.y, -sb.offset.z);
    Success(Conversion(origin, map k | k in plans :: PlanFile(structureName, plans[k], origin, ordered)))
  }

  /** Two plans of one name are written to one file name: the later one
      written replaces the earlier. */
  lemma SameNameSameFile(world: World, settings: Settings, sb: StructureBlock, merge: Merge, k1: Coord, k2: Coord)
    requires ConvertStructureBlock(world, settings, sb, merge).Success?
    requires var v := StructureBlockVolume(sb);
             ScanForPlans(world, v.0, v.1).Success?
             && var plans := ScanForPlans(world, v.0, v.1).value;
                k1 in plans && k2 in plans && plans[k1].name == plans[k2].name
    ensures var files := ConvertStructureBlock(world, settings, sb, merge).value.files;
            k1 in files && k2 in files
            && (files[k1].Success? && files[k2].Success? ==> files[k1].value.fileName == files[k2].value.fileName)
  {
  }

  /** A fill written unrotated under its own first name, and not an air fill. */
  ghost predicate WrittenAsIs(p: Placement) {
    exists f: NamedFill :: f.name != Air && |f.name| > 0 && p == Placement(f.lo, f.hi, f.name[0])
  }

  /** A structure without wall signs converts to one file, `<name>.0.mcfunction`,
      written without rotation or transmutation and without its air fills;
      it can only fail on a fill without a name. */
  lemma ConvertWithoutSigns(world: World, settings: Settings, sb: StructureBlock, merge: Merge)
    requires var v := StructureBlockVolume(sb); forall c :: InBox(c, v.0, v.1) ==> !IsWallSign(world, c)
    requires ConvertStructureBlock(world, settings, sb, merge).Success?
    ensures var conv := ConvertStructureBlock(world, settings, sb, merge).value;
            conv.files.Keys == {IdentityPosition}
            && var file := conv.files[IdentityPosition];
               (file.Failure? ==> file.error == ZeroDivisionError)
               && (file.Success? ==>
                     file.value.fileName == StripNamespace(sb.structureName).value + ".0.mcfunction"
                     && forall i :: 0 <= i < |file.value.placements| ==> WrittenAsIs(file.value.placements[i]))
  {
    var v := StructureBlockVolume(sb);
    ScanForPlansNoSigns(world, v.0, v.1);
    var conv := ConvertStructureBlock(world, settings, sb, merge).value;
    var ordered := StructureFills(world, settings, v.0, v.1, InitialPlans, merge).value;
    var file := PlanFile(StripNamespace(sb.structureName).value, IdentityPlan, conv.origin, ordered);
    assert conv.files[IdentityPosition] == file;
    EmitPlanSuccess(IdentityPlan, conv.origin, ordered);
    if file.Success? {
      assert FunctionFileName(StripNamespace(sb.structureName).value, IdentityPlan)
          == StripNamespace(sb.structureName).value + ".0.mcfunction";
      IdentityWritesAsIs(conv.origin, ordered);
    }
  }

  /** The identity plan writes every non-air fill unrotated under its first name. */
  lemma IdentityWritesAsIs(origin: Coord, fills: seq<NamedFill>)
    requires EmitPlan(IdentityPlan, origin, fills).Success?
    ensures var placements := EmitPlan(IdentityPlan, origin, fills).value;
            forall i :: 0 <= i < |placements| ==> WrittenAsIs(placements[i])
  {
    EmitPlanIsMap(IdentityPlan, origin, fills);
    KeptFillsAir(IdentityPlan, fills);
    var kept := KeptFills(IdentityPlan, fills);
    var placements := EmitPlan(IdentityPlan, origin, fills).value;
    forall i | 0 <= i < |placements| ensures WrittenAsIs(placements[i]) {
      var f := kept[i];
      TransmuteIdentity(f.name);
      assert EmitFill(IdentityPlan, origin, f) == Success(placements[i]);
      assert QuarterTurns(0, f.lo, origin) == f.lo && QuarterTurns(0, f.hi, origin) == f.hi;
      assert placements[i] == Placement(f.lo, f.hi, f.name[0]);
    }
  }

  /** The identity plan writes the first name of a fill unchanged. */
  lemma TransmuteIdentity(names: seq<string>)
    requires |names| > 0
    ensures Transmute(IdentityPlan, names) == names[0]
  {
  }
}
