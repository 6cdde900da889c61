/** The Java structure converter's block list: each block of an NBT structure
    named from its palette entry, renamed or dropped through the block name
    map, and the merged fills optionally sorted by priority. */
module Java {
  import opened Wrappers
  import opened Strings
  import opened Sorting
  import opened Voxels

  /** A palette entry: `Name` and, when present, `Properties` in tag order. */
  datatype PaletteEntry = PaletteEntry(name: string, properties: Option<seq<(string, string)>>)

  /** An entry of the structure's `blocks` list: `pos` and `state`. */
  datatype StructureEntry = StructureEntry(pos: seq<int>, state: int)

  /** The unpacked structure: `blocks` and `palette`. */
  datatype Structure = Structure(blocks: seq<StructureEntry>, palette: seq<PaletteEntry>)

  /** The converter's settings: `block_name_map` (a `None` target drops the
      block), `strip_namespace` and the optional `order_values`. */
  datatype JavaSettings = JavaSettings(blockNameMap: map<string, Option<string>>, stripNamespace: bool,
                                       orderValues: Option<map<string, int>>)

  /** A block handed to the fill merger: `(x, y, z, name)`. */
  datatype JavaBlock = JavaBlock(pos: Coord, name: string)

  /** The fill merger: blocks and the structure's size to fills. */
  type JavaMerge = (seq<JavaBlock>, seq<int>) -> seq<Fill<string>>

  /** A property value taken to be the default, and so left out of the name. */
  const DefaultValue: string := "false"

  /** The priority of a name missing from `order_values`. */
  const DefaultOrder: int := 50

  // ---------------------------------------------------------------------------
  // Block names.

  /** The properties that appear in a block's name: those whose value is not `false`. */
  function ShownProperties(props: seq<(string, string)>): (r: seq<(string, string)>)
    ensures forall i :: 0 <= i < |r| ==> r[i].1 != DefaultValue && r[i] in props
    ensures forall p :: p in props && p.1 != DefaultValue ==> p in r
    decreases |props|
  {
    if |props| == 0 then []
    else (if props[0].1 != DefaultValue then [props[0]] else []) + ShownProperties(props[1..])
  }

  /** A block's name: its palette name, after the namespace when stripping is
      on, followed by `[key=value,...]` when it has properties. */
  function BlockName(stripNamespace: bool, entry: PaletteEntry): (r: Result<string, Exception>)
    ensures r.Success? <==> !stripNamespace || StripNamespace(entry.name).Success?
    ensures r.Success? && entry.properties.None? ==>
              r.value == if stripNamespace then StripNamespace(entry.name).value else entry.name
  {
    var name :- if stripNamespace then StripNamespace(entry.name) else Success(entry.name);
    match entry.properties
    case None => Success(name)
    case Some(props) => Success(name + "[" + Join(PairTexts(ShownProperties(props), "="), ",") + "]")
  }

  /** The block name map applied to a name: a mapped name is replaced, and a
      name mapped to `None` is dropped. */
  function MapName(blockNameMap: map<string, Option<string>>, name: string): (r: Option<string>)
    ensures name !in blockNameMap ==> r == Some(name)
    ensures name in blockNameMap ==> r == blockNameMap[name]
  {
    if name in blockNameMap then blockNameMap[name] else Some(name)
  }

  /** One entry of `blocks`: its position unpacked into three coordinates
      (a `ValueError` otherwise), its palette entry (Python indexing, an
      `IndexError` outside the palette), its name and the name map. */
  function ConvertEntry(settings: JavaSettings, palette: seq<PaletteEntry>, b: StructureEntry)
    : (r: Result<Option<JavaBlock>, Exception>)
    ensures |b.pos| != 3 ==> r == Failure(ValueError)
    ensures |b.pos| == 3 && PyIndex(palette, b.state).None? ==> r == Failure(IndexError)
    ensures r.Success? && r.value.Some? ==> r.value.value.pos == Coord(b.pos[0], b.pos[1], b.pos[2])
  {
    if |b.pos| != 3 then Failure(ValueError)
    else
      match PyIndex(palette, b.state)
      case None => Failure(IndexError)
      case Some(entry) =>
        var name :- BlockName(settings.stripNamespace, entry);
        match MapName(settings.blockNameMap, name)
        case None => Success(None)
        case Some(mapped) => Success(Some(JavaBlock(Coord(b.pos[0], b.pos[1], b.pos[2]), mapped)))
  }

  /** The blocks one entry contributes: none when its name maps to `None`. */
  function Head(outcome: Option<JavaBlock>): seq<JavaBlock> {
    if outcome.Some? then [outcome.value] else []
  }

  /** The block list of a structure, in the order of its `blocks`. */
  function ConvertEntries(settings: JavaSettings, palette: seq<PaletteEntry>, entries: seq<StructureEntry>)
    : (r: Result<seq<JavaBlock>, Exception>)
    ensures r.Success? ==> |r.value| <= |entries|
    ensures r.Failure? ==> exists i :: 0 <= i < |entries| && ConvertEntry(settings, palette, entries[i]) == Failure(r.error)
    decreases |entries|
  {
    if |entries| == 0 then Success([])
    else
      var b :- ConvertEntry(settings, palette, entries[0]);
      var rest :- ConvertEntries(settings, palette, entries[1..]);
      Success(Head(b) + rest)
  }

  /** The blocks among per-entry outcomes, in order: an entry whose name maps
      to `None` contributes nothing. */
  function Kept(outcomes: seq<Option<JavaBlock>>): (r: seq<JavaBlock>)
    ensures |r| <= |outcomes|
    decreases |outcomes|
  {
    if |outcomes| == 0 then []
    else Head(outcomes[0]) + Kept(outcomes[1..])
  }

  // ---------------------------------------------------------------------------
  // Ordering.

  /** `order_values.get(f[2], 50)`: the priority of a fill's full name. */
  function JavaPriority(orderValues: map<string, int>): Fill<string> -> int {
    (f: Fill<string>) => if f.name in orderValues then orderValues[f.name] else DefaultOrder
  }

  /** The fills sorted stably by priority when `order_values` is set. */
  function OrderJavaFills(orderValues: Option<map<string, int>>, fills: seq<Fill<string>>)
    : (r: seq<Fill<string>>)
    ensures multiset(r) == multiset(fills)
    ensures orderValues.None? ==> r == fills
    ensures orderValues.Some? ==> SortedBy(r, JavaPriority(orderValues.value))
  {
    match orderValues
    case None => fills
    case Some(ov) => SortBy(fills, JavaPriority(ov))
  }

  /** The Java `convert`: the structure's blocks named and mapped, merged into
      fills, and ordered; these are the fills written, in order. */
  function JavaConvert(settings: JavaSettings, structure: Structure, size: seq<int>, merge: JavaMerge)
    : (r: Result<seq<Fill<string>>, Exception>)
    ensures r.Success? <==> ConvertEntries(settings, structure.palette, structure.blocks).Success?
    ensures r.Success? ==>
              multiset(r.value) == multiset(merge(ConvertEntries(settings, structure.palette, structure.blocks).value, size))
    ensures r.Success? && settings.orderValues.None? ==>
              r.value == merge(ConvertEntries(settings, structure.palette, structure.blocks).value, size)
    ensures r.Success? && settings.orderValues.Some? ==> SortedBy(r.value, JavaPriority(settings.orderValues.value))
  {
    var blocks :- ConvertEntries(settings, structure.palette, structure.blocks);
    Success(OrderJavaFills(settings.orderValues, merge(blocks, size)))
  }

  // ---------------------------------------------------------------------------
  // Lemmas.

  /** The properties of a name read back: split on `,`, the text between the
      brackets gives each shown property as `key=value`, in order, when keys
      and values hold no `,`. */
  lemma BlockNameProperties(stripNamespace: bool, entry: PaletteEntry, base: string)
    requires entry.properties.Some?
    requires BlockName(stripNamespace, entry).Success?
    requires base == if stripNamespace then StripNamespace(entry.name).value else entry.name
    requires var props := entry.properties.value;
             forall i :: 0 <= i < |props| ==> Excludes(props[i].0, {','}) && Excludes(props[i].1, {','})
    ensures var shown := PairTexts(ShownProperties(entry.properties.value), "=");
            var inner := Join(shown, ",");
            BlockName(stripNamespace, entry).Success?
            && BlockName(stripNamespace, entry).value == base + "[" + inner + "]"
            && (|shown| > 0 ==> Split(inner, ',') == shown)
            && (|shown| == 0 ==> inner == "")
  {
    var shownProps := ShownProperties(entry.properties.value);
    var shown := PairTexts(shownProps, "=");
    if |shown| > 0 {
      forall i | 0 <= i < |shown| ensures Excludes(shown[i], {','}) {
        assert shownProps[i] in entry.properties.value;
        assert shown[i] == shownProps[i].0 + "=" + shownProps[i].1;
      }
      SplitJoin(shown, ',', {','});
    }
  }

  /** The shown properties of a concatenation are those of each part, in
      order: the filter keeps the properties' order. */
  lemma {:induction false} ShownPropertiesAppend(a: seq<(string, string)>, b: seq<(string, string)>)
    ensures ShownProperties(a + b) == ShownProperties(a) + ShownProperties(b)
    decreases |a|
  {
    if |a| == 0 {
      assert a + b == b;
    } else {
      assert (a + b)[0] == a[0];
      assert (a + b)[1..] == a[1..] + b;
      ShownPropertiesAppend(a[1..], b);
    }
  }

  /** Properties none of whose values is `false` are all shown, unchanged. */
  lemma {:induction false} ShownPropertiesAll(props: seq<(string, string)>)
    requires forall i :: 0 <= i < |props| ==> props[i].1 != DefaultValue
    ensures ShownProperties(props) == props
    decreases |props|
  {
    if |props| > 0 {
      ShownPropertiesAll(props[1..]);
      assert props == [props[0]] + props[1..];
    }
  }

  /** A block is dropped exactly when its name maps to `None`; a kept block
      keeps its position and takes its mapped name. */
  lemma ConvertEntryKeeps(settings: JavaSettings, palette: seq<PaletteEntry>, b: StructureEntry)
    requires ConvertEntry(settings, palette, b).Success?
    ensures |b.pos| == 3 && PyIndex(palette, b.state).Some?
    ensures var name := BlockName(settings.stripNamespace, PyIndex(palette, b.state).value);
            name.Success?
            && (ConvertEntry(settings, palette, b).value.None? <==> MapName(settings.blockNameMap, name.value).None?)
            && (ConvertEntry(settings, palette, b).value.Some? ==>
                  ConvertEntry(settings, palette, b).value.value
                  == JavaBlock(Coord(b.pos[0], b.pos[1], b.pos[2]), MapName(settings.blockNameMap, name.value).value))
  {
  }

  /** The block list fails exactly when some entry fails; otherwise it is the
      kept outcomes of the entries, in order. */
  lemma {:induction false} ConvertEntriesKept(settings: JavaSettings, palette: seq<PaletteEntry>,
                                              entries: seq<StructureEntry>)
    ensures ConvertEntries(settings, palette, entries).Success?
        <==> forall i :: 0 <= i < |entries| ==> ConvertEntry(settings, palette, entries[i]).Success?
    ensures ConvertEntries(settings, palette, entries).Success? ==>
              ConvertEntries(settings, palette, entries).value
              == Kept(seq(|entries|, i requires 0 <= i < |entries| && ConvertEntry(settings, palette, entries[i]).Success? =>
                            ConvertEntry(settings, palette, entries[i]).value))
    decreases |entries|
  {
    if |entries| > 0 {
      ConvertEntriesKept(settings, palette, entries[1..]);
      assert forall i :: 1 <= i < |entries| ==> entries[i] == entries[1..][i - 1];
      if ConvertEntries(settings, palette, entries).Success? {
        var outcomes := seq(|entries|, i requires 0 <= i < |entries| && ConvertEntry(settings, palette, entries[i]).Success? =>
                              ConvertEntry(settings, palette, entries[i]).value);
        var tail := entries[1..];
        var rest := seq(|tail|, i requires 0 <= i < |tail| && ConvertEntry(settings, palette, tail[i]).Success? =>
                          ConvertEntry(settings, palette, tail[i]).value);
        assert outcomes[1..] == rest;
      }
    }
  }

  /** The Java order sort is stable: fills of equal priority keep their merge order. */
  lemma OrderJavaFillsStable(orderValues: map<string, int>, fills: seq<Fill<string>>, k: int)
    ensures WithKey(OrderJavaFills(Some(orderValues), fills), JavaPriority(orderValues), k)
         == WithKey(fills, JavaPriority(orderValues), k)
  {
    SortByStable(fills, JavaPriority(orderValues), k);
  }
}
