# Structure-to-function converters, modelled in Dafny

This project models the core of a Minecraft tool that turns structures built in
a world into `.mcfunction` files of `fill` commands. Two converters are modelled:

- **Bedrock.** A structure block's volume is scanned for *plans*. A plan is a
  wall sign whose text starts with `#`. Each plan gives a function name, a
  rotation, block *transmutations* and an air flag. Every block is named from
  its properties through a *data value map* and optional *rotation groups*.
  Plan positions and unplaced blocks are left out. The remaining voxels are
  merged into fills and optionally sorted by *order values*. Each plan then
  writes every fill, rotated about the structure's origin and transmuted.
- **Java.** An NBT structure is unpacked into native lists and dicts. Each
  block entry is named from its palette entry: the namespace is optionally
  stripped, and non-`false` properties are shown in brackets. The name is then
  mapped through a *block name map*, where `None` drops the block. The blocks
  are merged into fills and optionally sorted by order value.

Also modelled are the helpers `chunks` and `resolve_symbols`.

Python exceptions are modelled as `Result.Failure` values. `Exception` names
each one: `KeyError`, `IndexError`, `ValueError`, `TypeError`,
`ZeroDivisionError`, plus the explicit "requires a data value mapping" error.
No precondition excludes an input the Python code accepts, except where listed
under "## Left out".

The world is a finite map from coordinates to blocks, and `world.getBlock`
becomes a map lookup. The fill merger `group_blocks_into_fills` is not part of
this model, so it is a function parameter. The output of a plan is the list of
`(min, max, name)` triples handed to `write_fill`, which is not part of this
model either.

Modules, one per file:

| module | contents |
|---|---|
| Wrappers | `Option`, `Result`, `Exception`, Python indexing |
| Strings | `split`, `join`, `str.split()`, `startswith`, `in`, `replace`, `int()`, `str()` |
| Sorting | Python's stable `list.sort(key=...)` |
| Voxels | coordinates, `scan_volume`, `structure_block_volume` |
| Rotation | `ROTATION_MATRICES` and `Plan.rotate` |
| Plans | `Plan.__init__` and `Plan.transmute` |
| DataValues | `add_data_values` and `get_block_name` |
| PlanScan | `scan_for_plans` |
| Bedrock | `generate_volume`, the order sort, the air filter and `convert_structure_block` |
| Nbt | `unpack_nbt` |
| Java | the naming, mapping and ordering steps of the Java `convert` |
| Helpers | `chunks` and `resolve_symbols` |

Two behaviours of the code worth knowing:

- A sign whose text does not parse is not skipped. `int()` on the rotation, or
  unpacking a transmutation that does not split into two parts at `>`, raises.
  That exception ends the scan: `PlanScan.Visit` returns the error.
- The implicit identity plan at `(0, -1, 0)` is deleted by any sign whose text
  starts with `#0,`, wherever that sign is. The text triggers the deletion, not
  the sign's position. When the scan never visits `(0, -1, 0)` itself, a
  second such sign raises a `KeyError`, because the key is already gone
  (`PlanScan.CollectTwoIdentitySigns`, which assumes exactly that). A plan sign
  at `(0, -1, 0)` puts a plan back under that key, so a later `#0,` sign
  deletes that plan instead of raising.

## Model

| member | source | states |
|---|---|---|
| Wrappers.PyIndex | functions/functions/structure/java.py:35 | Python indexing of a list or tuple is defined exactly for indices in `-len..len-1`; a negative index counts from the end |
| Strings.StripNamespace | functions/functions/structure/bedrock.py:119-120 | `_, name = s.split(':')` succeeds exactly when `s` has exactly one colon; the result is the colon-free text after it, and the rest of `s` is the text before the colon |
| Strings.SplitJoin | functions/functions/structure/bedrock.py:41 | splitting a comma-joined list of separator-free parts gives the parts back |
| Strings.JoinSplit | functions/functions/structure/bedrock.py:41 | joining the parts of a split at `c` with `c` gives the string back |
| Strings.WordsOfPair | functions/functions/structure/bedrock.py:57 | `"a b".split()` is `[a, b]` for two non-empty whitespace-free words |
| Strings.WordsOfWord | functions/functions/structure/bedrock.py:57 | a non-empty whitespace-free string splits into itself alone |
| Strings.ParseInt | functions/functions/structure/bedrock.py:43 | `int()` of a string of decimal digits is their value, and of `-` followed by digits is the negated value |
| Strings.ParseIntToString | functions/functions/structure/bedrock.py:43 | `int(str(n)) == n` for every integer |
| Strings.Words | functions/functions/structure/bedrock.py:57 | every word of `str.split()` is non-empty and holds no whitespace |
| Strings.ReplaceAll | functions/functions/__init__.py:19 | `replace` of a target by itself leaves the string unchanged, and a replacement of the target's length keeps the length |
| Strings.IntToStringShape | functions/functions/structure/bedrock.py:150 | `str(n)` is non-empty and holds no whitespace, separator, colon or brace |
| Strings.NatToStringDigits | functions/functions/structure/bedrock.py:150 | `str(n)` of a natural is all decimal digits, and their value is `n` |
| Sorting.SortBy | functions/functions/structure/bedrock.py:268 | the sort's result is ordered by key and is a permutation of its input |
| Sorting.SortByStable | functions/functions/structure/bedrock.py:268 | the sort is stable: the elements with any one key keep their relative order |
| Sorting.SortBySorted | functions/functions/structure/bedrock.py:268 | sorting a list already ordered by key leaves it unchanged |
| Voxels.ScanVolumeMembers | functions/functions/structure/bedrock.py:75-85 | `scan_volume` yields exactly the coordinates inside the inclusive box |
| Voxels.ScanVolumeOrder | functions/functions/structure/bedrock.py:82-85 | the coordinates come in lexicographic `(x, y, z)` order, each once |
| Voxels.ScanVolumeLength | functions/functions/structure/bedrock.py:82-85 | the scan has one coordinate per voxel of the box, and none for an empty box |
| Voxels.StructureBlockVolume | functions/functions/structure/bedrock.py:153-167 | the lower corner is the block position plus the structure offset, and the box has exactly the declared size |
| Voxels.StructureBlockVoxelCount | functions/functions/structure/bedrock.py:153-167 | scanning a structure block's volume visits size.x × size.y × size.z voxels when no size is negative; a side of size zero or less leaves the volume empty |
| Rotation.Rotate | functions/functions/structure/bedrock.py:65-72 | `Plan.rotate` is defined exactly for rotations in `-4..3`, the `IndexError` of `ROTATION_MATRICES` being `None`; the height is never changed |
| Rotation.RotateIsQuarterTurns | functions/functions/structure/bedrock.py:8-13 | rotation `r` through the matrices equals `r mod 4` counter-clockwise quarter turns about the origin |
| Rotation.RotateZeroOneOrigin | functions/functions/structure/bedrock.py:8-13 | matrix 0 is the identity, matrix 1 maps the offset `(dx, dz)` to `(-dz, dx)`, and the origin column is fixed by every rotation |
| Rotation.RotateFourTimes | functions/functions/structure/bedrock.py:8-13 | four quarter turns give the voxel back |
| Rotation.RotateKeepsDistance | functions/functions/structure/bedrock.py:65-72 | a rotation keeps the horizontal distance to the origin |
| Rotation.RotateCompose | functions/functions/structure/bedrock.py:8-13 | for any two rotations `a`, `b` in `-4..3` (every rotation the matrix table accepts), rotating by `a` then by `b` equals rotating by `(a + b) mod 4` |
| Rotation.QuarterTurnsAdd | functions/functions/structure/bedrock.py:8-13 | `m` quarter turns after `n` quarter turns are `m + n` quarter turns |
| Plans.Instructions | functions/functions/structure/bedrock.py:41 | `re.split('\n\|,', text[1:])` gives at least one part and no part holds a newline or comma; a text of one character or none gives `['']` |
| Plans.Transmutations | functions/functions/structure/bedrock.py:44-47 | building the dict fails exactly when some non-empty, non-`void_air` instruction does not split at `>` into two parts, and the failure is a `ValueError` |
| Plans.ParsePlan | functions/functions/structure/bedrock.py:32-48 | a parsed plan's name is the first instruction, its rotation is the integer the second instruction parses to, and its transmutations are those of the later instructions; it writes air exactly when `void_air` is among the later instructions. Parsing fails exactly when there are fewer than two instructions (an `IndexError`), the rotation is not an integer or a transmutation is malformed (both a `ValueError`) |
| Plans.TransmutationKeys | functions/functions/structure/bedrock.py:44-47 | the transmutation map's keys are exactly the left-hand sides of the non-empty, non-`void_air` instructions |
| Plans.TransmutationsOfPairs | functions/functions/structure/bedrock.py:44-47 | instructions `a>b` built from pairs parse back to the dict of those pairs, a later pair overriding an earlier one |
| Plans.ParseSignText | functions/functions/structure/bedrock.py:32-48 | a sign text written from a name, rotation, pairs and air flag parses back to exactly that plan |
| Plans.DefaultPlanIsIdentity | functions/functions/structure/bedrock.py:32 | `Plan()` is the identity plan: name "0", rotation 0, no transmutations, air left out |
| Plans.ParseIdentityNameTurned | functions/functions/structure/bedrock.py:41-43 | the sign text `#0` over `1` gives a plan with the identity plan's name "0", turned once |
| Plans.Transmute | functions/functions/structure/bedrock.py:50-63 | a plan without transmutations picks the name for its rotation, `name[rotation % len(name)]` |
| Plans.TransmuteKeepsDataValue | functions/functions/structure/bedrock.py:55-60 | for any name list, when the name the rotation picks is "block value" and the block is transmuted, the result is the new block name followed by the same data value |
| Plans.TransmuteWholeName | functions/functions/structure/bedrock.py:55-62 | for any name list, when the name the rotation picks is a whole word that is transmuted, the result is its transmutation |
| Plans.TransmuteUnmatched | functions/functions/structure/bedrock.py:56-63 | a rotated name matching no transmutation is returned unchanged |
| Plans.TransmuteSingleName | functions/functions/structure/bedrock.py:55-56 | with one name, the rotation does not change which name is picked |
| DataValues.RotationGroupMapOf | functions/functions/structure/bedrock.py:219-221 | every group item is a key, and every key belongs to the group it maps to |
| DataValues.IndexOf | functions/functions/structure/bedrock.py:97 | `list.index` gives the first position of the item |
| DataValues.GroupFanOut | functions/functions/structure/bedrock.py:98-103 | the four values are the group members' values, starting at the given place and wrapping round modulo 4 |
| DataValues.AddDataValues | functions/functions/structure/bedrock.py:88-108 | a grouped key that succeeds yields four values, value `i` being the first running value plus the value of the group member `i` places after the key, modulo 4; any other key that succeeds adds its mapped value to every running value |
| DataValues.FanOutShifts | functions/functions/structure/bedrock.py:98-103 | starting one group member later shifts the four values by one place |
| DataValues.FanOutPeriod | functions/functions/structure/bedrock.py:101-102 | the fan-out depends only on the start place modulo 4 |
| DataValues.FanOutExample | functions/functions/structure/bedrock.py:94-103 | with north/east/south/west at 0/4/8/12, "facing:east" gives `[4, 8, 12, 0]` |
| DataValues.AccumulateDataValues | functions/functions/structure/bedrock.py:131-146 | the property loop keeps the running values at length 1 or 4 |
| DataValues.AccumulateNone | functions/functions/structure/bedrock.py:140-143 | a loop that raises nothing ends with `None` exactly when some property maps to `None` |
| DataValues.AccumulateMissing | functions/functions/structure/bedrock.py:136-139 | an unmapped property, with all earlier ones mapped to values, makes the loop fail; a missing-mapping error names the block and exactly that key |
| DataValues.AccumulateFirstMissing | functions/functions/structure/bedrock.py:136-139 | without rotation groups, the first unmapped property raises exactly the error naming the block and its key |
| DataValues.FanOutShift | functions/functions/structure/bedrock.py:101-102 | starting one place later in a group shifts the four values by one place |
| DataValues.GetBlockName | functions/functions/structure/bedrock.py:111-150 | a block without properties is its own single name; a successful result has 1 or 4 names, and needs the namespace strip to succeed |
| DataValues.AccumulatePlain | functions/functions/structure/bedrock.py:131-146 | properties in no rotation group and mapped to values add the sum of their values to every running value, whatever properties follow |
| DataValues.AccumulateAllPlain | functions/functions/structure/bedrock.py:131-146 | with every property in no group and mapped to a value, the loop gives the start value plus the sum of the mapped values |
| DataValues.GetBlockNamePlain | functions/functions/structure/bedrock.py:111-150 | such a block gets the one name "base sum", the sum of its properties' values |
| DataValues.AccumulateGroupedLast | functions/functions/structure/bedrock.py:88-146 | a last property in a rotation group, after plain ones, gives the fan-out of the running sum from the member's place, or the fan-out's error |
| DataValues.GroupedLastShifts | functions/functions/structure/bedrock.py:94-103 | for two such blocks whose group members are one step apart, the four data values are shifted by one place |
| DataValues.GetBlockNameNone | functions/functions/structure/bedrock.py:140-149 | a `get_block_name` that raises nothing returns `None` exactly when one of the block's properties maps to `None` |
| DataValues.BlockNameWords | functions/functions/structure/bedrock.py:150 | each fill name splits into the block name and a data value that `int()` parses |
| PlanScan.Visit | functions/functions/structure/bedrock.py:194-204 | a non-sign is skipped; a sign without `Text` is a `KeyError`; a `#` sign adds its parsed plan at its position and nothing else changes, except that a `#0,` sign first removes the identity plan |
| PlanScan.Collect | functions/functions/structure/bedrock.py:193-205 | every key of the loop's result was there at the start or is a visited position; a failure needs a wall sign among the visited positions |
| PlanScan.ScanForPlans | functions/functions/structure/bedrock.py:183-205 | every plan other than the identity key lies in the box; a failure needs a wall sign in the box |
| PlanScan.CollectKeys | functions/functions/structure/bedrock.py:193-205 | every plan the loop ends with is a visited plan sign's parsed text, or was there from the start unchanged |
| PlanScan.CollectFindsSigns | functions/functions/structure/bedrock.py:193-205 | every visited plan sign, other than one at the identity position, ends up as a plan |
| PlanScan.CollectNoSigns | functions/functions/structure/bedrock.py:193-205 | a scan over no wall signs changes nothing |
| PlanScan.ScanForPlansKeys | functions/functions/structure/bedrock.py:183-205 | apart from `(0, -1, 0)`, the plans sit exactly at the plan signs in the box, each parsed from its sign's text |
| PlanScan.ScanForPlansIdentity | functions/functions/structure/bedrock.py:190-203 | when no plan sign stands at `(0, -1, 0)`, the identity plan stays exactly when no sign in the box starts with `#0,` |
| PlanScan.ScanForPlansNoSigns | functions/functions/structure/bedrock.py:190-205 | a volume without wall signs has only the identity plan |
| PlanScan.CollectMissingText | functions/functions/structure/bedrock.py:196-199 | a wall sign without a `Text` tag makes the scan fail |
| PlanScan.CollectTwoIdentitySigns | functions/functions/structure/bedrock.py:200-203 | when the scan never visits `(0, -1, 0)`, two `#0,` signs make the scan fail: the second deletes a missing key |
| PlanScan.CollectNoIdentity | functions/functions/structure/bedrock.py:200-203 | when the scan never visits `(0, -1, 0)`, a `#0,` sign after the identity plan is gone makes the scan fail |
| Bedrock.BlockVoxel | functions/functions/structure/bedrock.py:230-238 | one step of `generate_volume`: it fails exactly when `get_block_name` does; it yields a voxel exactly for a present, non-plan block with names, at the block's offset from the lower corner |
| Bedrock.GenerateFrom | functions/functions/structure/bedrock.py:230-238 | the generator yields at most one voxel per visited coordinate, each at a visited coordinate's offset from the lower corner; a failure needs a visited block whose name does not resolve |
| Bedrock.GenerateVolume | functions/functions/structure/bedrock.py:223-238 | every voxel lies in the box once shifted back by the lower corner; a failure needs a block of the box whose name does not resolve |
| Bedrock.GenerateFromSuccess | functions/functions/structure/bedrock.py:230-238 | the generator runs to the end exactly when every block's name resolves |
| Bedrock.GenerateFromSound | functions/functions/structure/bedrock.py:230-238 | every yielded voxel is a placed, non-plan block of the scan, named by `get_block_name` |
| Bedrock.GenerateFromComplete | functions/functions/structure/bedrock.py:230-238 | every placed, non-plan block of the scan is yielded |
| Bedrock.GenerateVolumeMembers | functions/functions/structure/bedrock.py:223-238 | the voxels are exactly the placed, non-plan blocks of the box, relative to its lower corner |
| Bedrock.FillKey | functions/functions/structure/bedrock.py:268 | `f[2][0].split()[0]` exists exactly when the fill has a name with a word, and it is that first word |
| Bedrock.OrderFills | functions/functions/structure/bedrock.py:265-268 | without order values the fills are unchanged; with them, the sort succeeds exactly when every fill has a key; the result is a permutation ordered by priority, 50 for unlisted names |
| Bedrock.OrderFillsStable | functions/functions/structure/bedrock.py:268 | fills of equal priority keep their order |
| Bedrock.OrderFillsSorted | functions/functions/structure/bedrock.py:268 | fills already in priority order are left as they are |
| Bedrock.KeptFills | functions/functions/structure/bedrock.py:286-287 | the fills a plan writes all pass the air test and come from the fill list |
| Bedrock.KeptFillsAir | functions/functions/structure/bedrock.py:287 | without `void_air` no air fill is written; every non-air fill is written; with `void_air` every fill is written |
| Bedrock.EmitFill | functions/functions/structure/bedrock.py:288-296 | a written fill has both corners rotated by the plan about the origin and the transmuted name; it fails exactly for a rotation outside `-4..3` (`IndexError`) or an empty name list (`ZeroDivisionError`) |
| Bedrock.EmitPlan | functions/functions/structure/bedrock.py:286-296 | a plan writes at most one fill per fill, and can fail only with `IndexError` or `ZeroDivisionError` |
| Bedrock.EmitPlanSuccess | functions/functions/structure/bedrock.py:286-296 | a plan's file is written exactly when every kept fill can be emitted; the error is `IndexError` for a rotation outside `-4..3` and `ZeroDivisionError` otherwise |
| Bedrock.EmitPlanIsMap | functions/functions/structure/bedrock.py:286-296 | the written fills correspond one to one, in order, to the kept fills |
| Bedrock.EmitPlanSucceeds | functions/functions/structure/bedrock.py:286-296 | a plan with a rotation in `-4..3` writes every fill that has a name |
| Bedrock.PlanFile | functions/functions/structure/bedrock.py:282-284 | a plan's file is named `<structure>.<plan>.mcfunction` and exists exactly when its fills can be emitted |
| Bedrock.StructureFills | functions/functions/structure/bedrock.py:255-268 | the ordered fills are a permutation of the merged voxels of the volume; without order values they exist exactly when the voxels do |
| Bedrock.ConvertStructureBlock | functions/functions/structure/bedrock.py:240-296 | the origin is the negated structure offset, so origin plus lower corner is the structure block; the conversion succeeds exactly when the structure name, the plan scan and the ordered fills all succeed; each plan, keyed by its sign's position, gets a file written from the shared ordered fills |
| Bedrock.SameNameSameFile | functions/functions/structure/bedrock.py:281-284 | two plans with the same name get the same file name, so the later one written replaces the earlier |
| Bedrock.IdentityWritesAsIs | functions/functions/structure/bedrock.py:286-296 | the identity plan writes every kept fill unrotated under its first name, and no air fill |
| Bedrock.ConvertWithoutSigns | functions/functions/structure/bedrock.py:183-205 | a structure without signs gives one file, `<structure>.0.mcfunction`, written without rotation or transmutation and without air fills |
| Bedrock.TransmuteIdentity | functions/functions/structure/bedrock.py:50-63 | the identity plan writes every fill's first name unchanged |
| Nbt.Unpack | functions/functions/structure/java.py:5-14 | a list tag unpacks to a list, a compound to a dict, and a value tag to its value |
| Nbt.UnpackList | functions/functions/structure/java.py:9-10 | a list tag unpacks to a list of the same length, item `i` unpacked in place `i` |
| Nbt.UnpackCompound | functions/functions/structure/java.py:11-12 | a compound's dict keys are exactly its children's names, each holding the last child of that name unpacked |
| Nbt.PairsToDictLast | functions/functions/structure/java.py:12 | a dict comprehension keeps, for each key, the value of the last pair with that key |
| Nbt.Pack | functions/functions/structure/java.py:5-14 | the tag tree of a native value is unnamed, a list tag exactly for a list, with one item per element; `Nbt.UnpackPack` is its inverse |
| Nbt.UnpackPack | functions/functions/structure/java.py:5-14 | unpacking the tag tree of any dict-free native value gives that value back |
| Java.ShownProperties | functions/functions/structure/java.py:40-44 | the shown properties are exactly the ones whose value is not `false` |
| Java.ShownPropertiesAppend | functions/functions/structure/java.py:40-44 | the filter keeps the properties' order |
| Java.ShownPropertiesAll | functions/functions/structure/java.py:40-44 | properties none of which is `false` are all shown, unchanged |
| Java.BlockName | functions/functions/structure/java.py:36-45 | naming fails exactly when stripping finds no single colon; without properties the name is the (stripped) name |
| Java.BlockNameProperties | functions/functions/structure/java.py:39-45 | with properties the name is `base[k=v,...]`, and splitting the bracket text at commas gives the shown `k=v` texts back |
| Java.MapName | functions/functions/structure/java.py:47-49 | a mapped name is replaced by its mapping (`None` drops it), and an unmapped name is kept |
| Java.ConvertEntry | functions/functions/structure/java.py:33-50 | a position without three coordinates is a `ValueError`, and a state outside the palette an `IndexError`; a kept block sits at the entry's position |
| Java.ConvertEntryKeeps | functions/functions/structure/java.py:33-50 | a converted entry is dropped exactly when its name maps to `None`, and is otherwise its position with the mapped name |
| Java.ConvertEntries | functions/functions/structure/java.py:31-50 | the block list has at most one block per entry; a failure is the failure of some entry |
| Java.ConvertEntriesKept | functions/functions/structure/java.py:31-50 | the block list exists exactly when every entry converts; it is the kept entries' blocks, in the order of `blocks` |
| Java.OrderJavaFills | functions/functions/structure/java.py:55-57 | without order values the fills are unchanged; with them, they are a permutation ordered by the full name's priority, 50 for unlisted names |
| Java.OrderJavaFillsStable | functions/functions/structure/java.py:57 | fills of equal priority keep their order |
| Java.JavaConvert | functions/functions/structure/java.py:31-57 | the conversion succeeds exactly when the block list does; its fills are a permutation of the merged fills of that list, equal to them without order values, and ordered by priority with them |
| Helpers.Chunks | functions/functions/__init__.py:6-9 | a zero size is `range`'s `ValueError`; a negative size gives no chunks; every chunk has 1 to n elements, all but the last exactly n |
| Helpers.ChunksSlices | functions/functions/__init__.py:6-9 | chunk `k` is `lst[k*n:k*n+n]`, and there are `ceil(len(lst) / n)` chunks |
| Helpers.ChunksConcat | functions/functions/__init__.py:6-9 | the chunks joined back together are the list |
| Helpers.CloseAt | functions/functions/__init__.py:18 | a match of the lazy `.*?}` ends at a `}` at or after the start |
| Helpers.CloseAtSome | functions/functions/__init__.py:18 | no `}` and no newline come before the end of a match |
| Helpers.CloseAtNone | functions/functions/__init__.py:18 | when there is no match, a newline comes before every later `}` |
| Helpers.FindSymbolsAreSymbols | functions/functions/__init__.py:18 | every match of `{.*?}` holds a symbol without `}` or newline |
| Helpers.FindSymbolsSound | functions/functions/__init__.py:18 | every symbol found occurs in the text in braces |
| Helpers.FindSymbolsComplete | functions/functions/__init__.py:18 | every `{name}` of the text with a name free of `}` and newlines is found, when no match holds a `{` |
| Helpers.ReplaceSymbols | functions/functions/__init__.py:18-19 | the replacement loop can only fail with the `KeyError` of a symbol missing from the map |
| Helpers.ResolveSymbols | functions/functions/__init__.py:12-20 | a failure is the `KeyError` of a symbol found in the block; without a symbol map, the first symbol found is the error |
| Helpers.ReplaceSymbolsKeys | functions/functions/__init__.py:18-19 | the loop succeeds exactly when every symbol is in the map, and otherwise fails on the first missing one |
| Helpers.ResolveSymbolsKeys | functions/functions/__init__.py:12-20 | `resolve_symbols` succeeds exactly when every `{name}` of the block names a symbol of the map |
| Helpers.ResolveSymbolsPlain | functions/functions/__init__.py:18-20 | a block name without `{` is returned unchanged |
| Helpers.ReplaceAllAbsent | functions/functions/__init__.py:19 | `replace` leaves a string without the target unchanged |
| Helpers.SubstFromNothing | functions/functions/__init__.py:18-20 | the one-pass substitution with no symbol to replace copies the text |
| Helpers.ReplaceAllAfter | functions/functions/__init__.py:19 | `replace` leaves a prefix alone when no occurrence of the target starts in it |
| Helpers.SubstFromStep | functions/functions/__init__.py:18-19 | one turn of the loop, replacing `{x}` everywhere, takes the one-pass substitution of the symbols done so far to that of those symbols and `x` |
| Helpers.ReplaceSymbolsPass | functions/functions/__init__.py:18-19 | the whole loop takes the one-pass substitution of the symbols done so far to that of every symbol found as well |
| Helpers.ResolveSymbolsSubstitute | functions/functions/__init__.py:12-20 | when every match names a symbol of the map and no matched name or value holds a `{`, `resolve_symbols` is the one-pass substitution of every `{name}` by its value |
| Helpers.ResolveSymbolsExample | functions/functions/__init__.py:12-20 | `{w}` with `w` mapped to `oak` resolves to `oak` |

## Left out

- File and world I/O is not modelled: opening the world, `os.makedirs`, `open`, `print`, `NBTFile` reading and `namespace_dir`. The world is a map from coordinates to blocks.
- `volume_structure_blocks` and the outer loops of `convert` over the world index volume are not modelled. They only read the world.
- `group_blocks_into_fills` and `write_fill` are not part of this model. The merger is a function parameter, and a plan's output is the list of `write_fill` arguments.
- Dict insertion order is not modelled. Plans are a map from position to plan, and the conversion gives one result per plan, so the order files are written in is not modelled.
- An exception while writing one plan's file does not stop the remaining plans here. In Python it would. Each plan's file is its own `Result`.
- `int()` accepts only ASCII digits here, with an optional sign and surrounding whitespace. Underscores and other Unicode digits are not modelled.
- NumPy integers are plain integers. The matrices' products are small, so no wrap-around applies.
- Java palette properties are a list of pairs. Duplicate keys, which an NBT compound cannot hold, are not collapsed.
- The air test compares a fill's name list with `["air"]`. The source compares against the tuple `('air',)`, so the outcome depends on the name type the merger returns, and the merger is not part of this model.
- Plans.Transmute: requires a non-empty name list. The `ZeroDivisionError` of an empty list is modelled one level up, in `Bedrock.EmitFill`.
- Helpers.ResolveSymbols: the symbol map is given directly, or as `None` when the setting is missing. The `dpath` path lookup is not modelled.
- Helpers.ResolveSymbols: its result is tied to the one-pass substitution only when no matched name and no substituted value holds a `{`. Otherwise the `replace` loop can match inside a value it has just written, or inside a longer match. In `{a}{b{a}`, the matches are `{a}` and `{b{a}`, and replacing `{a}` first breaks the second match.
- Bedrock.ConvertStructureBlock: the files are keyed by the position of each plan's sign, not by file name. On disk the file name `<structure>.<plan>.mcfunction` is the key, so of two plans with the same name only the file written last is kept. For example, a sign `#0` over `1` gives a second plan named "0" next to the identity plan (`Plans.ParseIdentityNameTurned`, `Bedrock.SameNameSameFile`). Which file survives depends on the write order, which is not modelled.
- Strings.ReplaceAll: requires a non-empty target. `resolve_symbols` only replaces matches, which are at least two characters long.
- Java.Structure: the unpacked structure is a typed record with `blocks` and `palette`, each block with `pos` and `state` and each palette entry with `Name`; `size` is a separate argument of `Java.JavaConvert`. So the `KeyError` of a structure that lacks one of these keys cannot arise here. The `IndexError` of a bad `state` and the `ValueError` of a `pos` that is not three long are modelled.
- Java.JavaConvert: it takes a `Java.Structure`, not the `Nbt.Native` value that `Nbt.Unpack` returns. Reading the typed record out of the unpacked dicts is not modelled, so the two parts are not connected by a lemma.
