/** `add_data_values` and `get_block_name`: a Bedrock block's properties become
    one data value, or four when a property belongs to a rotation group. */
module DataValues {
  import opened Wrappers
  import opened Strings

  /** A block property, `prop.name` and `prop.payload`. */
  datatype Property = Property(name: string, payload: string)

  /** A block as the world reader returns it: a name and its properties. */
  datatype Block = Block(name: string, properties: seq<Property>)

  /** Data values of one block name: `"property:value"` to a value, where
      `None` means the block is not to be placed. */
  type BlockDataValues = map<string, Option<int>>

  /** The `data_value_map` setting: block name to its data values. */
  type DataValueMap = map<string, BlockDataValues>

  /** Each `"property:value"` of a rotation group to its whole group. */
  type RotationGroupMap = map<string, seq<string>>

  /** The rotation group map the converter builds from the `rotation_groups`
      setting; a name listed in two groups belongs to the later one. */
  function RotationGroupMapOf(groups: seq<seq<string>>): (m: RotationGroupMap)
    ensures forall k :: k in m ==> k in m[k]
    ensures forall i, j :: 0 <= i < |groups| && 0 <= j < |groups[i]| ==> groups[i][j] in m
    decreases |groups|
  {
    if |groups| == 0 then map[]
    else
      var init, last := groups[..|groups| - 1], groups[|groups| - 1];
      var m := RotationGroupMapOf(init);
      assert forall i :: 0 <= i < |init| ==> init[i] == groups[i];
      m + map k | k in last :: last
  }

  /** The position of the first occurrence of `x` in `s` (`list.index`). */
  function IndexOf(s: seq<string>, x: string): (i: nat)
    requires x in s
    ensures i < |s| && s[i] == x && x !in s[..i]
  {
    if s[0] == x then 0
    else
      var i := 1 + IndexOf(s[1..], x);
      assert s[..i] == [s[0]] + s[1..][..i - 1];
      i
  }

  /** One entry of the fan-out: `data_values[0] + map[group[j]]`, with the
      exceptions Python raises on the way (an empty list, a group shorter than
      four, a missing key, a `None` value). */
  function GroupValue(group: seq<string>, j: nat, dvm: BlockDataValues, values: seq<int>): Result<int, Exception> {
    if |values| == 0 then Failure(IndexError)
    else if j >= |group| then Failure(IndexError)
    else if group[j] !in dvm then Failure(KeyError(group[j]))
    else if dvm[group[j]].None? then Failure(TypeError)
    else Success(values[0] + dvm[group[j]].value)
  }

  /** The four values of a rotation-group member at place `start`, one per
      rotation step; the first failing step is the error. */
  function GroupFanOut(group: seq<string>, start: nat, dvm: BlockDataValues, values: seq<int>)
    : (r: Result<seq<int>, Exception>)
    ensures r.Success? ==>
              |r.value| == 4 && forall i :: 0 <= i < 4 ==> GroupValue(group, (start + i) % 4, dvm, values) == Success(r.value[i])
  {
    var v0 :- GroupValue(group, (start + 0) % 4, dvm, values);
    var v1 :- GroupValue(group, (start + 1) % 4, dvm, values);
    var v2 :- GroupValue(group, (start + 2) % 4, dvm, values);
    var v3 :- GroupValue(group, (start + 3) % 4, dvm, values);
    Success([v0, v1, v2, v3])
  }

  /** `add_data_values`: adds the value of `key` to the running data values.
      A rotation-group member fans the first value out into four, one per
      rotation step, starting from the member's own place in its group. */
  function AddDataValues(rgm: RotationGroupMap, dvm: BlockDataValues, key: string, values: seq<int>)
    : (r: Result<seq<int>, Exception>)
    ensures r.Success? && key in rgm ==>
              key in rgm[key] && |r.value| == 4 &&
              forall i :: 0 <= i < 4 ==>
                GroupValue(rgm[key], (IndexOf(rgm[key], key) + i) % 4, dvm, values) == Success(r.value[i])
    ensures r.Success? && key !in rgm ==>
              |r.value| == |values| &&
              (|values| > 0 ==> key in dvm && dvm[key].Some?) &&
              forall i :: 0 <= i < |values| ==> r.value[i] == values[i] + dvm[key].value
  {
    if key in rgm then
      var group := rgm[key];
      if key !in group then Failure(ValueError)
      else
        GroupFanOut(group, IndexOf(group, key), dvm, values)
    else if |values| == 0 then Success([])
    else if key !in dvm then Failure(KeyError(key))
    else if dvm[key].None? then Failure(TypeError)
    else Success(seq(|values|, i requires 0 <= i < |values| => values[i] + dvm[key].value))
  }

  /** `f'{prop.name}:{prop.payload}'`. */
  function PropertyKey(p: Property): string {
    p.name + ":" + p.payload
  }

  /** The loop of `get_block_name` over the properties: a missing mapping is
      the error naming the block and the key, a `None` mapping stops with
      `None`, and every other mapping is added in. */
  function AccumulateDataValues(name: string, dvm: BlockDataValues, rgm: RotationGroupMap,
                                props: seq<Property>, values: seq<int>)
    : (r: Result<Option<seq<int>>, Exception>)
    ensures r.Success? && r.value.Some? && (|values| == 1 || |values| == 4) ==>
              |r.value.value| == 1 || |r.value.value| == 4
    decreases |props|
  {
    if |props| == 0 then Success(Some(values))
    else
      var key := PropertyKey(props[0]);
      if key !in dvm then Failure(MissingDataValue(name, key))
      else if dvm[key].None? then Success(None)
      else
        var next :- AddDataValues(rgm, dvm, key, values);
        AccumulateDataValues(name, dvm, rgm, props[1..], next)
  }

  /** The name `get_block_name` works with: the block's name, after the
      namespace when stripping is on. */
  function BaseName(stripNamespace: bool, block: Block): Result<string, Exception> {
    if stripNamespace then StripNamespace(block.name) else Success(block.name)
  }

  /** `get_block_name`: the fill names of a block, one per rotation step when
      a property belongs to a rotation group; `None` when the block is not to
      be placed. */
  function GetBlockName(stripNamespace: bool, dvm: DataValueMap, rgm: RotationGroupMap, block: Block)
    : (r: Result<Option<seq<string>>, Exception>)
    ensures |block.properties| == 0 && BaseName(stripNamespace, block).Success? ==>
              r == Success(Some([BaseName(stripNamespace, block).value]))
    ensures r.Success? && r.value.Some? ==> |r.value.value| == 1 || |r.value.value| == 4
    ensures r.Success? ==> BaseName(stripNamespace, block).Success?
    ensures r.Success? && |block.properties| > 0 ==>
              var name := BaseName(stripNamespace, block).value;
              var values := AccumulateDataValues(name, DataValuesFor(dvm, name), rgm, block.properties, [0]);
              values.Success? && (r.value.Some? <==> values.value.Some?)
              && (r.value.Some? ==> |r.value.value| == |values.value.value|
                                    && forall i :: 0 <= i < |r.value.value| ==> r.value.value[i] == name + " " + IntToString(values.value.value[i]))
  {
    var name :- BaseName(stripNamespace, block);
    if |block.properties| == 0 then Success(Some([name]))
    else
      var values :- AccumulateDataValues(name, DataValuesFor(dvm, name), rgm, block.properties, [0]);
      match values
      case None => Success(None)
      case Some(vs) =>
        var names := seq(|vs|, i requires 0 <= i < |vs| => name + " " + IntToString(vs[i]));
        Success(Some(names))
  }

  /** The data values of `block` under `dvm` ("name missing" reads as an empty map). */
  function DataValuesFor(dvm: DataValueMap, name: string): BlockDataValues {
    if name in dvm then dvm[name] else map[]
  }

  // ---------------------------------------------------------------------------
  // Lemmas.

  /** The accumulation ends in `None` exactly when some property maps to
      `None`, whenever it ends without an error. */
  lemma {:induction false} AccumulateNone(name: string, dvm: BlockDataValues, rgm: RotationGroupMap,
                                          props: seq<Property>, values: seq<int>)
    requires AccumulateDataValues(name, dvm, rgm, props, values).Success?
    ensures AccumulateDataValues(name, dvm, rgm, props, values).value.None?
        <==> exists i :: 0 <= i < |props| && PropertyKey(props[i]) in dvm && dvm[PropertyKey(props[i])].None?
    decreases |props|
  {
    if |props| > 0 {
      var key := PropertyKey(props[0]);
      if dvm[key].Some? {
        var next := AddDataValues(rgm, dvm, key, values).value;
        AccumulateNone(name, dvm, rgm, props[1..], next);
        assert forall i :: 1 <= i < |props| ==> props[i] == props[1..][i - 1];
      }
    }
  }

  /** A block with properties is dropped exactly when one of its properties
      maps to `None`, whenever the conversion raises nothing. */
  lemma GetBlockNameNone(stripNamespace: bool, dvm: DataValueMap, rgm: RotationGroupMap, block: Block)
    requires GetBlockName(stripNamespace, dvm, rgm, block).Success?
    requires |block.properties| > 0
    ensures var forBlock := DataValuesFor(dvm, BaseName(stripNamespace, block).value);
            (GetBlockName(stripNamespace, dvm, rgm, block).value.None?
             <==> exists i :: 0 <= i < |block.properties| && PropertyKey(block.properties[i]) in forBlock
                           && forBlock[PropertyKey(block.properties[i])].None?)
  {
    var name := BaseName(stripNamespace, block).value;
    AccumulateNone(name, DataValuesFor(dvm, name), rgm, block.properties, [0]);
  }

  /** An unmapped property is an error naming the block and the missing key,
      provided the properties before it are mapped to values. */
  lemma {:induction false} AccumulateMissing(name: string, dvm: BlockDataValues, rgm: RotationGroupMap,
                                             props: seq<Property>, values: seq<int>, k: nat)
    requires k < |props| && PropertyKey(props[k]) !in dvm
    requires forall i :: 0 <= i < k ==> PropertyKey(props[i]) in dvm && dvm[PropertyKey(props[i])].Some?
    ensures var r := AccumulateDataValues(name, dvm, rgm, props, values);
            r.Failure? && (r.error.MissingDataValue? ==> r.error.block == name)
    ensures var r := AccumulateDataValues(name, dvm, rgm, props, values);
            r.Failure? && r.error.MissingDataValue? ==> r.error.key == PropertyKey(props[k])
    decreases k
  {
    if k > 0 {
      var key := PropertyKey(props[0]);
      var next := AddDataValues(rgm, dvm, key, values);
      if next.Success? {
        assert forall i :: 0 <= i < k - 1 ==> props[1..][i] == props[i + 1];
        AccumulateMissing(name, dvm, rgm, props[1..], next.value, k - 1);
      }
    }
  }

  /** Every property of `props` maps to a value and belongs to no rotation group. */
  predicate PlainValues(dvm: BlockDataValues, rgm: RotationGroupMap, props: seq<Property>) {
    forall i :: 0 <= i < |props| ==>
      PropertyKey(props[i]) !in rgm && PropertyKey(props[i]) in dvm && dvm[PropertyKey(props[i])].Some?
  }

  /** The sum of the values the properties map to (a property without a value counts 0). */
  function ValueSum(dvm: BlockDataValues, props: seq<Property>): int
    decreases |props|
  {
    if |props| == 0 then 0
    else
      var key := PropertyKey(props[0]);
      (if key in dvm && dvm[key].Some? then dvm[key].value else 0) + ValueSum(dvm, props[1..])
  }

  /** Every running value raised by `d`. */
  function Shifted(values: seq<int>, d: int): (r: seq<int>)
    ensures |r| == |values| && forall i :: 0 <= i < |values| ==> r[i] == values[i] + d
  {
    seq(|values|, i requires 0 <= i < |values| => values[i] + d)
  }

  /** Properties outside every rotation group and mapped to values just add
      their values to every running value, whatever follows them. */
  lemma {:induction false} AccumulatePlain(name: string, dvm: BlockDataValues, rgm: RotationGroupMap,
                                           pre: seq<Property>, rest: seq<Property>, values: seq<int>)
    requires PlainValues(dvm, rgm, pre)
    ensures AccumulateDataValues(name, dvm, rgm, pre + rest, values)
         == AccumulateDataValues(name, dvm, rgm, rest, Shifted(values, ValueSum(dvm, pre)))
    decreases |pre|
  {
    if |pre| == 0 {
      assert pre + rest == rest;
      assert Shifted(values, 0) == values;
    } else {
      var key := PropertyKey(pre[0]);
      var d := dvm[key].value;
      assert (pre + rest)[0] == pre[0] && (pre + rest)[1..] == pre[1..] + rest;
      assert AddDataValues(rgm, dvm, key, values) == Success(Shifted(values, d));
      assert PlainValues(dvm, rgm, pre[1..]) by {
        forall i | 0 <= i < |pre[1..]| ensures pre[1..][i] == pre[i + 1] { }
      }
      AccumulatePlain(name, dvm, rgm, pre[1..], rest, Shifted(values, d));
      assert Shifted(Shifted(values, d), ValueSum(dvm, pre[1..])) == Shifted(values, ValueSum(dvm, pre));
    }
  }

  /** With every property outside the rotation groups and mapped to a value,
      the data value is the start value plus the sum of the mapped values. */
  lemma AccumulateAllPlain(name: string, dvm: BlockDataValues, rgm: RotationGroupMap, props: seq<Property>, v: int)
    requires PlainValues(dvm, rgm, props)
    ensures AccumulateDataValues(name, dvm, rgm, props, [v]) == Success(Some([v + ValueSum(dvm, props)]))
  {
    AccumulatePlain(name, dvm, rgm, props, [], [v]);
    assert props + [] == props;
    assert Shifted([v], ValueSum(dvm, props)) == [v + ValueSum(dvm, props)];
  }

  /** A block whose properties are all outside the rotation groups and mapped
      to values gets the one name "name sum". */
  lemma GetBlockNamePlain(stripNamespace: bool, dvm: DataValueMap, rgm: RotationGroupMap, block: Block)
    requires BaseName(stripNamespace, block).Success? && |block.properties| > 0
    requires PlainValues(DataValuesFor(dvm, BaseName(stripNamespace, block).value), rgm, block.properties)
    ensures var name := BaseName(stripNamespace, block).value;
            GetBlockName(stripNamespace, dvm, rgm, block)
            == Success(Some([name + " " + IntToString(ValueSum(DataValuesFor(dvm, name), block.properties))]))
  {
    var name := BaseName(stripNamespace, block).value;
    var sum := ValueSum(DataValuesFor(dvm, name), block.properties);
    AccumulateAllPlain(name, DataValuesFor(dvm, name), rgm, block.properties, 0);
    assert AccumulateDataValues(name, DataValuesFor(dvm, name), rgm, block.properties, [0]) == Success(Some([sum]));
    var names := seq(1, i requires 0 <= i < 1 => name + " " + IntToString([sum][i]));
    assert names == [name + " " + IntToString(sum)];
  }

  /** A last property in a rotation group, after plain ones, fans out the sum
      of the plain values: the block gets the fan-out of its group member,
      or the error the fan-out raises. */
  lemma AccumulateGroupedLast(name: string, dvm: BlockDataValues, rgm: RotationGroupMap,
                              pre: seq<Property>, p: Property, values: seq<int>)
    requires PlainValues(dvm, rgm, pre)
    requires PropertyKey(p) in rgm && PropertyKey(p) in dvm && dvm[PropertyKey(p)].Some?
    ensures var fanOut := AddDataValues(rgm, dvm, PropertyKey(p), Shifted(values, ValueSum(dvm, pre)));
            AccumulateDataValues(name, dvm, rgm, pre + [p], values)
            == if fanOut.Success? then Success(Some(fanOut.value)) else Failure(fanOut.error)
  {
    AccumulatePlain(name, dvm, rgm, pre, [p], values);
    assert [p][1..] == [];
  }

  /** Turning the group member of such a block one step round its group turns
      its four data values one step too. */
  lemma GroupedLastShifts(name: string, dvm: BlockDataValues, rgm: RotationGroupMap, group: seq<string>,
                          pre: seq<Property>, pa: Property, pb: Property)
    requires PlainValues(dvm, rgm, pre)
    requires var a, b := PropertyKey(pa), PropertyKey(pb);
             a in rgm && b in rgm && rgm[a] == group && rgm[b] == group && a in group && b in group
             && a in dvm && dvm[a].Some? && b in dvm && dvm[b].Some?
             && IndexOf(group, b) == (IndexOf(group, a) + 1) % 4
    requires AccumulateDataValues(name, dvm, rgm, pre + [pa], [0]).Success?
    ensures var ra, rb := AccumulateDataValues(name, dvm, rgm, pre + [pa], [0]),
                          AccumulateDataValues(name, dvm, rgm, pre + [pb], [0]);
            rb.Success? && ra.value.Some? && rb.value.Some?
            && |ra.value.value| == 4 && |rb.value.value| == 4
            && forall i :: 0 <= i < 4 ==> rb.value.value[i] == ra.value.value[(i + 1) % 4]
  {
    var start := Shifted([0], ValueSum(dvm, pre));
    AccumulateGroupedLast(name, dvm, rgm, pre, pa, [0]);
    AccumulateGroupedLast(name, dvm, rgm, pre, pb, [0]);
    FanOutShifts(rgm, dvm, group, PropertyKey(pa), PropertyKey(pb), start);
  }

  /** With no rotation groups the first unmapped property is the error, naming
      the block and exactly that key. */
  lemma {:induction false} AccumulateFirstMissing(name: string, dvm: BlockDataValues,
                                                  props: seq<Property>, values: seq<int>, k: nat)
    requires k < |props| && PropertyKey(props[k]) !in dvm
    requires forall i :: 0 <= i < k ==> PropertyKey(props[i]) in dvm && dvm[PropertyKey(props[i])].Some?
    ensures AccumulateDataValues(name, dvm, map[], props, values)
         == Failure(MissingDataValue(name, PropertyKey(props[k])))
    decreases k
  {
    if k > 0 {
      var key := PropertyKey(props[0]);
      var next := AddDataValues(map[], dvm, key, values);
      assert next.Success?;
      assert forall i :: 0 <= i < k - 1 ==> props[1..][i] == props[i + 1];
      AccumulateFirstMissing(name, dvm, props[1..], next.value, k - 1);
    }
  }

  /** Starting the fan-out one place further round gives the same four values
      shifted by one. */
  lemma FanOutShift(group: seq<string>, start: nat, dvm: BlockDataValues, values: seq<int>)
    requires GroupFanOut(group, start, dvm, values).Success?
    ensures GroupFanOut(group, start + 1, dvm, values).Success?
    ensures var next, prev := GroupFanOut(group, start + 1, dvm, values).value, GroupFanOut(group, start, dvm, values).value;
            forall i :: 0 <= i < 4 ==> next[i] == prev[(i + 1) % 4]
  {
    var fa := GroupFanOut(group, start, dvm, values).value;
    Mod4Shift(start, 0);
    Mod4Shift(start, 1);
    Mod4Shift(start, 2);
    Mod4Shift(start, 3);
    assert GroupValue(group, (start + 1 + 0) % 4, dvm, values) == Success(fa[1]);
    assert GroupValue(group, (start + 1 + 1) % 4, dvm, values) == Success(fa[2]);
    assert GroupValue(group, (start + 1 + 2) % 4, dvm, values) == Success(fa[3]);
    assert GroupValue(group, (start + 1 + 3) % 4, dvm, values) == Success(fa[0]);
  }

  /** A rotation-group member fans out in group order starting at its own
      place: the member one step further round gives the same four values
      shifted by one. */
  lemma FanOutShifts(rgm: RotationGroupMap, dvm: BlockDataValues, group: seq<string>, a: string, b: string,
                     values: seq<int>)
    requires a in rgm && b in rgm && rgm[a] == group && rgm[b] == group && a in group && b in group
    requires IndexOf(group, b) == (IndexOf(group, a) + 1) % 4
    requires AddDataValues(rgm, dvm, a, values).Success?
    ensures AddDataValues(rgm, dvm, b, values).Success?
    ensures var rb, ra := AddDataValues(rgm, dvm, b, values).value, AddDataValues(rgm, dvm, a, values).value;
            forall i :: 0 <= i < 4 ==> rb[i] == ra[(i + 1) % 4]
  {
    var ia, ib := IndexOf(group, a), IndexOf(group, b);
    assert AddDataValues(rgm, dvm, a, values) == GroupFanOut(group, ia, dvm, values);
    assert AddDataValues(rgm, dvm, b, values) == GroupFanOut(group, ib, dvm, values);
    FanOutShift(group, ia, dvm, values);
    FanOutPeriod(group, ia + 1, dvm, values);
  }

  /** The fan-out depends only on the place modulo four. */
  lemma FanOutPeriod(group: seq<string>, start: nat, dvm: BlockDataValues, values: seq<int>)
    ensures GroupFanOut(group, start, dvm, values) == GroupFanOut(group, start % 4, dvm, values)
  {
    Mod4Period(start);
  }

  lemma Mod4Period(start: nat)
    ensures (start + 0) % 4 == (start % 4 + 0) % 4
    ensures (start + 1) % 4 == (start % 4 + 1) % 4
    ensures (start + 2) % 4 == (start % 4 + 2) % 4
    ensures (start + 3) % 4 == (start % 4 + 3) % 4
  {
  }

  lemma Mod4Shift(j: int, i: int)
    requires 0 <= i < 4
    ensures ((j + 1) % 4 + i) % 4 == (j + (i + 1) % 4) % 4
  {
  }

  /** The scenario of `FanOutExample`: a four-member facing group whose
      members map to 0, 4, 8 and 12. */
  const FacingGroup: seq<string> := ["facing:north", "facing:east", "facing:south", "facing:west"]
  const FacingValues: BlockDataValues :=
    map["facing:north" := Some(0), "facing:east" := Some(4), "facing:south" := Some(8), "facing:west" := Some(12)]

  lemma FacingFanOut()
    ensures GroupFanOut(FacingGroup, 1, FacingValues, [0]) == Success([4, 8, 12, 0])
  {
    assert GroupValue(FacingGroup, 1, FacingValues, [0]) == Success(4);
    assert GroupValue(FacingGroup, 2, FacingValues, [0]) == Success(8);
    assert GroupValue(FacingGroup, 3, FacingValues, [0]) == Success(12);
    assert GroupValue(FacingGroup, 0, FacingValues, [0]) == Success(0);
  }

  lemma FacingGroupMap()
    ensures var rgm := RotationGroupMapOf([FacingGroup]);
            "facing:east" in rgm && rgm["facing:east"] == FacingGroup && IndexOf(FacingGroup, "facing:east") == 1
  {
    assert [FacingGroup][..0] == [];
    assert FacingGroup[0][7] != FacingGroup[1][7];
  }

  lemma EastKey()
    ensures PropertyKey(Property("facing", "east")) == "facing:east"
  {
    assert "facing" + ":" == "facing:";
  }

  /** Scenario: a block whose only property is the second member of a
      four-member group gets the four values of the group starting there. */
  lemma FanOutExample()
    ensures AccumulateDataValues("door", FacingValues, RotationGroupMapOf([FacingGroup]), [Property("facing", "east")], [0])
         == Success(Some([4, 8, 12, 0]))
  {
    var rgm := RotationGroupMapOf([FacingGroup]);
    FacingGroupMap();
    FacingFanOut();
    EastKey();
    assert AddDataValues(rgm, FacingValues, "facing:east", [0]) == Success([4, 8, 12, 0]);
    var props := [Property("facing", "east")];
    assert props[1..] == [];
  }

  /** Every fill name of a block with properties reads back, under
      `str.split()`, as its block name and a data value that `int()` parses. */
  lemma BlockNameWords(stripNamespace: bool, dvm: DataValueMap, rgm: RotationGroupMap, block: Block)
    requires GetBlockName(stripNamespace, dvm, rgm, block).Success?
    requires GetBlockName(stripNamespace, dvm, rgm, block).value.Some?
    requires |block.properties| > 0
    requires var name := BaseName(stripNamespace, block).value; |name| > 0 && NoSpace(name)
    ensures var names := GetBlockName(stripNamespace, dvm, rgm, block).value.value;
            forall i :: 0 <= i < |names| ==>
              |Words(names[i])| == 2 && Words(names[i])[0] == BaseName(stripNamespace, block).value
              && ParseInt(Words(names[i])[1]).Some?
  {
    var name := BaseName(stripNamespace, block).value;
    var names := GetBlockName(stripNamespace, dvm, rgm, block).value.value;
    forall i | 0 <= i < |names|
      ensures |Words(names[i])| == 2 && Words(names[i])[0] == name && ParseInt(Words(names[i])[1]).Some?
    {
      var v := AccumulateDataValues(name, DataValuesFor(dvm, name), rgm, block.properties, [0]).value.value[i];
      IntToStringShape(v);
      WordsOfPair(name, IntToString(v));
      ParseIntToString(v);
    }
  }
}
