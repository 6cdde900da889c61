/** The `Plan` class: one output function of a structure, parsed from the text
    of a wall sign, with its name, rotation, block transmutations and air flag. */
module Plans {
  import opened Wrappers
  import opened Strings

  /** A function plan. `transmutations` maps a block name to its replacement;
      `doAir` asks for the structure's air fills to be written. */
  datatype Plan = Plan(name: string, rotation: int, transmutations: map<string, string>, doAir: bool)

  /** The instruction that makes a plan write air. */
  const VoidAir: string := "void_air"

  /** The sign text `Plan()` parses when it is given none. */
  const DefaultSignText: string := "#0\n0"

  /** The identity plan: name "0", no rotation, no transmutations, air left out. */
  const IdentityPlan: Plan := Plan("0", 0, map[], false)

  /** The characters that separate the instructions of a sign. */
  const PlanSeparators: set<char> := {'\n', ','}

  /** The instructions of a sign: everything after its first character, split
      at commas and newlines. */
  function Instructions(text: string): (parts: seq<string>)
    ensures |parts| >= 1 && forall i :: 0 <= i < |parts| ==> Excludes(parts[i], PlanSeparators)
    ensures |text| <= 1 ==> parts == [""]
  {
    SplitAny(if |text| == 0 then "" else text[1..], PlanSeparators)
  }

  /** A transmutation instruction: neither empty nor the void-air instruction. */
  predicate IsTransmutation(token: string) {
    token != "" && token != VoidAir
  }

  /** The transmutation map of the instructions after the rotation, later
      instructions overriding earlier ones for the same block; an instruction
      that does not split at '>' into exactly two parts is a `ValueError`. */
  function Transmutations(tokens: seq<string>): (r: Result<map<string, string>, Exception>)
    ensures r.Failure? <==> exists i :: 0 <= i < |tokens| && IsTransmutation(tokens[i]) && |Split(tokens[i], '>')| != 2
    ensures r.Failure? ==> r.error == ValueError
    decreases |tokens|
  {
    if |tokens| == 0 then Success(map[])
    else
      var init, last := tokens[..|tokens| - 1], tokens[|tokens| - 1];
      var m :- Transmutations(init);
      if !IsTransmutation(last) then Success(m)
      else
        var pair := Split(last, '>');
        if |pair| != 2 then Failure(ValueError)
        else Success(m[pair[0] := pair[1]])
  }

  /** `Plan(wall_sign_text)`. A missing rotation is an `IndexError`; a rotation
      that is not an integer, or a malformed transmutation, is a `ValueError`. */
  function ParsePlan(text: string): (r: Result<Plan, Exception>)
    ensures r.Success? ==> |Instructions(text)| >= 2
    ensures r.Success? ==> r.value.name == Instructions(text)[0]
    ensures r.Success? ==> ParseInt(Instructions(text)[1]) == Some(r.value.rotation)
    ensures r.Success? ==> (r.value.doAir <==> VoidAir in Instructions(text)[2..])
    ensures r.Success? ==> Transmutations(Instructions(text)[2..]) == Success(r.value.transmutations)
    ensures r.Failure? <==> (|Instructions(text)| < 2 || ParseInt(Instructions(text)[1]).None?
                             || Transmutations(Instructions(text)[2..]).Failure?)
    ensures |Instructions(text)| < 2 ==> r == Failure(IndexError)
    ensures |Instructions(text)| >= 2 && r.Failure? ==> r.error == ValueError
  {
    var parts := Instructions(text);
    if |parts| < 2 then Failure(IndexError)
    else match ParseInt(parts[1])
      case None => Failure(ValueError)
      case Some(rotation) =>
        var transmutations :- Transmutations(parts[2..]);
        Success(Plan(parts[0], rotation, transmutations, VoidAir in parts[2..]))
  }

  /** The blocks a plan transmutes are exactly the `before` halves of its
      transmutation instructions. */
  lemma {:induction false} TransmutationKeys(tokens: seq<string>)
    requires Transmutations(tokens).Success?
    ensures forall k :: k in Transmutations(tokens).value <==>
              exists i :: 0 <= i < |tokens| && IsTransmutation(tokens[i]) && Split(tokens[i], '>')[0] == k
    decreases |tokens|
  {
    if |tokens| > 0 {
      var init := tokens[..|tokens| - 1];
      TransmutationKeys(init);
      assert forall i :: 0 <= i < |init| ==> init[i] == tokens[i];
    }
  }

  /** `Plan.transmute`: picks the name for the plan's rotation (a one-name list
      serves every rotation) and applies the transmutations, first to the block
      name of a "name value" pair, keeping the value, then to the whole name. */
  function Transmute(plan: Plan, names: seq<string>): (r: string)
    requires |names| > 0
    ensures plan.transmutations == map[] ==> r == names[plan.rotation % |names|]
  {
    var selected := names[plan.rotation % |names|];
    var parts := Words(selected);
    if |parts| == 2 && parts[0] in plan.transmutations then
      plan.transmutations[parts[0]] + " " + parts[1]
    else if selected in plan.transmutations then plan.transmutations[selected]
    else selected
  }

  // ---------------------------------------------------------------------------
  // Sign text written from a plan, and the round trip through `ParsePlan`.

  /** The map a list of `before>after` pairs builds, later pairs winning. */
  function PairsToMap(pairs: seq<(string, string)>): map<string, string>
    decreases |pairs|
  {
    if |pairs| == 0 then map[]
    else PairsToMap(pairs[..|pairs| - 1])[pairs[|pairs| - 1].0 := pairs[|pairs| - 1].1]
  }

  /** Sign text for a plan: `#name,rotation,before>after,...[,void_air]`. */
  function SignText(name: string, rotation: int, pairs: seq<(string, string)>, doAir: bool): string {
    "#" + Join([name, IntToString(rotation)] + PairTexts(pairs, ">") + (if doAir then [VoidAir] else []), ",")
  }

  /** A name can stand in sign text when it holds no separator and no '>'. */
  predicate SignSafe(s: string) {
    Excludes(s, {'\n', ',', '>'})
  }

  lemma SplitPair(a: string, b: string)
    requires SignSafe(a) && SignSafe(b)
    ensures Split(a + ">" + b, '>') == [a, b]
  {
    assert Excludes(a, {'>'}) && Excludes(b, {'>'});
    SplitJoin([a, b], '>', {'>'});
    assert Join([a, b], ">") == a + ">" + b;
  }

  lemma {:induction false} TransmutationsOfPairs(pairs: seq<(string, string)>)
    requires forall i :: 0 <= i < |pairs| ==> SignSafe(pairs[i].0) && SignSafe(pairs[i].1)
    ensures Transmutations(PairTexts(pairs, ">")) == Success(PairsToMap(pairs))
    decreases |pairs|
  {
    if |pairs| > 0 {
      var n := |pairs|;
      var tokens := PairTexts(pairs, ">");
      assert tokens[..n - 1] == PairTexts(pairs[..n - 1], ">");
      TransmutationsOfPairs(pairs[..n - 1]);
      SplitPair(pairs[n - 1].0, pairs[n - 1].1);
      assert IsTransmutation(tokens[n - 1]) by {
        assert tokens[n - 1][|pairs[n - 1].0|] == '>';
      }
    }
  }

  lemma TransmutationsSkipLast(tokens: seq<string>, last: string)
    requires !IsTransmutation(last)
    ensures Transmutations(tokens + [last]) == Transmutations(tokens)
  {
    assert (tokens + [last])[..|tokens|] == tokens;
  }

  /** The instructions of the text written for a plan. */
  function SignParts(name: string, rotation: int, pairs: seq<(string, string)>, doAir: bool): seq<string> {
    [name, IntToString(rotation)] + (PairTexts(pairs, ">") + (if doAir then [VoidAir] else []))
  }

  lemma InstructionsOfSignText(name: string, rotation: int, pairs: seq<(string, string)>, doAir: bool)
    requires SignSafe(name)
    requires forall i :: 0 <= i < |pairs| ==> SignSafe(pairs[i].0) && SignSafe(pairs[i].1)
    ensures Instructions(SignText(name, rotation, pairs, doAir)) == SignParts(name, rotation, pairs, doAir)
  {
    var tokens := PairTexts(pairs, ">");
    var parts := SignParts(name, rotation, pairs, doAir);
    IntToStringShape(rotation);
    forall i | 0 <= i < |parts| ensures Excludes(parts[i], PlanSeparators) {
      if 2 <= i < 2 + |tokens| {
        var p := pairs[i - 2];
        assert parts[i] == p.0 + ">" + p.1;
      }
    }
    var text := SignText(name, rotation, pairs, doAir);
    assert [name, IntToString(rotation)] + tokens + (if doAir then [VoidAir] else []) == parts;
    assert text[1..] == Join(parts, ",");
    SplitJoin(parts, ',', PlanSeparators);
  }

  lemma PairTokensNotVoidAir(pairs: seq<(string, string)>)
    ensures VoidAir !in PairTexts(pairs, ">")
  {
    var tokens := PairTexts(pairs, ">");
    forall i | 0 <= i < |tokens| ensures tokens[i] != VoidAir {
      var n := |pairs[i].0|;
      assert tokens[i][n] == '>';
      if n < |VoidAir| {
        assert VoidAir[n] != '>';
      }
    }
  }

  lemma ParsePlanOf(text: string, rotation: int, transmutations: map<string, string>)
    requires |Instructions(text)| >= 2
    requires ParseInt(Instructions(text)[1]) == Some(rotation)
    requires Transmutations(Instructions(text)[2..]) == Success(transmutations)
    ensures ParsePlan(text) == Success(Plan(Instructions(text)[0], rotation, transmutations,
                                            VoidAir in Instructions(text)[2..]))
  {
  }

  /** Parsing the text written for a plan gives the plan back. */
  lemma ParseSignText(name: string, rotation: int, pairs: seq<(string, string)>, doAir: bool)
    requires SignSafe(name)
    requires forall i :: 0 <= i < |pairs| ==> SignSafe(pairs[i].0) && SignSafe(pairs[i].1)
    ensures ParsePlan(SignText(name, rotation, pairs, doAir))
         == Success(Plan(name, rotation, PairsToMap(pairs), doAir))
  {
    var text := SignText(name, rotation, pairs, doAir);
    var tokens := PairTexts(pairs, ">");
    var tail := tokens + (if doAir then [VoidAir] else []);
    InstructionsOfSignText(name, rotation, pairs, doAir);
    var parts := Instructions(text);
    assert parts == [name, IntToString(rotation)] + tail;
    assert parts[0] == name && parts[1] == IntToString(rotation) && parts[2..] == tail;
    ParseIntToString(rotation);
    TransmutationsOfPairs(pairs);
    PairTokensNotVoidAir(pairs);
    if doAir {
      assert tail == tokens + [VoidAir];
      TransmutationsSkipLast(tokens, VoidAir);
      assert VoidAir in tail;
    } else {
      assert tail == tokens;
    }
    ParsePlanOf(text, rotation, PairsToMap(pairs));
  }

  /** `Plan()` is the identity plan. */
  lemma DefaultPlanIsIdentity()
    ensures ParsePlan(DefaultSignText) == Success(IdentityPlan)
  {
    var parts := Instructions(DefaultSignText);
    assert DefaultSignText[1..] == "0" + "\n0";
    SplitAnyPrefix("0", "\n0", PlanSeparators);
    SplitAnyNoSeparator("0", PlanSeparators);
    assert "\n0"[1..] == "0";
    assert SplitAny("\n0", PlanSeparators) == [""] + SplitAny("0", PlanSeparators);
    assert parts == ["0", "0"];
    ParseIntToString(0);
    assert IntToString(0) == "0";
    assert parts[2..] == [];
  }

  /** A sign "#0" over "1" parses to a plan that shares the identity plan's
      name "0", turned once. */
  lemma ParseIdentityNameTurned()
    ensures ParsePlan("#0\n1") == Success(Plan(IdentityPlan.name, 1, map[], false))
  {
    var text := "#0\n1";
    var parts := Instructions(text);
    assert text[1..] == "0" + "\n1";
    SplitAnyPrefix("0", "\n1", PlanSeparators);
    SplitAnyNoSeparator("0", PlanSeparators);
    assert "\n1"[1..] == "1";
    assert SplitAny("\n1", PlanSeparators) == [""] + SplitAny("1", PlanSeparators);
    SplitAnyNoSeparator("1", PlanSeparators);
    assert parts == ["0", "1"];
    ParseIntToString(1);
    assert IntToString(1) == "1";
    assert parts[2..] == [];
  }

  // ---------------------------------------------------------------------------
  // Transmutation lemmas.

  /** A one-name list gives the same result for every rotation. */
  lemma TransmuteSingleName(plan: Plan, name: string, rotation: int)
    ensures Transmute(plan, [name]) == Transmute(plan.(rotation := rotation), [name])
  {
  }

  /** A block "name value" whose name has a transmutation becomes
      "replacement value": the data value is kept. */
  lemma TransmuteKeepsDataValue(plan: Plan, names: seq<string>, name: string, value: int)
    requires |names| > 0 && names[plan.rotation % |names|] == name + " " + IntToString(value)
    requires |name| > 0 && NoSpace(name) && name in plan.transmutations
    ensures Transmute(plan, names) == plan.transmutations[name] + " " + IntToString(value)
  {
    IntToStringShape(value);
    WordsOfPair(name, IntToString(value));
  }

  /** A whitespace-free name that is a transmutation key is replaced whole. */
  lemma TransmuteWholeName(plan: Plan, names: seq<string>, name: string)
    requires |names| > 0 && names[plan.rotation % |names|] == name
    requires |name| > 0 && NoSpace(name) && name in plan.transmutations
    ensures Transmute(plan, names) == plan.transmutations[name]
  {
    WordsOfWord(name);
  }

  /** A name untouched by every transmutation passes through unchanged. */
  lemma TransmuteUnmatched(plan: Plan, names: seq<string>)
    requires |names| > 0
    requires names[plan.rotation % |names|] !in plan.transmutations
    requires var w := Words(names[plan.rotation % |names|]);
             |w| != 2 || w[0] !in plan.transmutations
    ensures Transmute(plan, names) == names[plan.rotation % |names|]
  {
  }
}
