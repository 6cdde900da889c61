/** The shared helpers of the converters: `chunks`, which cuts a list into
    pieces of a fixed size, and `resolve_symbols`, which replaces the
    `{name}` references in a block name by their values in the symbol map. */
module Helpers {
  import opened Wrappers
  import opened Strings

  function Min(a: int, b: int): int {
    if a <= b then a else b
  }

  /** The elements of the pieces, in order. */
  function Concat<T>(pieces: seq<seq<T>>): seq<T>
    decreases |pieces|
  {
    if |pieces| == 0 then [] else pieces[0] + Concat(pieces[1..])
  }

  // ---------------------------------------------------------------------------
  // chunks

  /** The slices `lst[i:i + n]` for `i` in `range(start, len(lst), n)`. */
  function ChunksFrom<T>(lst: seq<T>, n: nat, start: nat): (r: seq<seq<T>>)
    requires n > 0
    ensures start >= |lst| <==> r == []
    ensures forall k :: 0 <= k < |r| ==> 0 < |r[k]| <= n
    ensures forall k :: 0 <= k < |r| - 1 ==> |r[k]| == n
    decreases |lst| - start
  {
    if start >= |lst| then []
    else [lst[start .. Min(start + n, |lst|)]] + ChunksFrom(lst, n, start + n)
  }

  /** `list(chunks(lst, n))`: a zero step is `range`'s `ValueError`, and a
      negative step gives an empty range. */
  function Chunks<T>(lst: seq<T>, n: int): (r: Result<seq<seq<T>>, Exception>)
    ensures r.Failure? <==> n == 0
    ensures r.Failure? ==> r.error == ValueError
    ensures n < 0 ==> r == Success([])
    ensures n > 0 ==> (|lst| == 0 <==> r == Success([]))
    ensures r.Success? ==> forall k :: 0 <= k < |r.value| ==> 0 < |r.value[k]| <= n
    ensures r.Success? ==> forall k :: 0 <= k < |r.value| - 1 ==> |r.value[k]| == n
  {
    if n == 0 then Failure(ValueError)
    else if n < 0 then Success([])
    else Success(ChunksFrom(lst, n, 0))
  }

  /** One step of `n` fewer multiples. */
  lemma MulStep(a: int, n: int)
    ensures (a - 1) * n + n == a * n
  {
  }

  /** Chunk `k` is the slice starting at `start + k * n`. */
  lemma {:induction false} ChunkAt<T>(lst: seq<T>, n: nat, start: nat, k: nat)
    requires n > 0 && k < |ChunksFrom(lst, n, start)|
    ensures start + k * n < |lst|
    ensures ChunksFrom(lst, n, start)[k] == lst[start + k * n .. Min(start + k * n + n, |lst|)]
    decreases k
  {
    if k > 0 {
      var rest := ChunksFrom(lst, n, start + n);
      assert ChunksFrom(lst, n, start)[k] == rest[k - 1];
      ChunkAt(lst, n, start + n, k - 1);
      MulStep(k, n);
    }
  }

  /** Every chunk is the slice starting at its multiple of `n`. */
  lemma ChunksFromSlices<T>(lst: seq<T>, n: nat, start: nat)
    requires n > 0
    ensures var r := ChunksFrom(lst, n, start);
            forall k :: 0 <= k < |r| ==> start + k * n < |lst| && r[k] == lst[start + k * n .. Min(start + k * n + n, |lst|)]
  {
    forall k | 0 <= k < |ChunksFrom(lst, n, start)|
      ensures start + k * n < |lst| && ChunksFrom(lst, n, start)[k] == lst[start + k * n .. Min(start + k * n + n, |lst|)]
    {
      ChunkAt(lst, n, start, k);
    }
  }

  /** The chunks cover the rest of the list with fewer than `n` elements to
      spare: there are `ceil((len(lst) - start) / n)` of them. */
  lemma {:induction false} ChunksFromCount<T>(lst: seq<T>, n: nat, start: nat)
    requires n > 0
    ensures var r := ChunksFrom(lst, n, start);
            start < |lst| ==> start + (|r| - 1) * n < |lst| <= start + |r| * n
    decreases |lst| - start
  {
    if start < |lst| {
      var r := ChunksFrom(lst, n, start);
      var rest := ChunksFrom(lst, n, start + n);
      ChunksFromCount(lst, n, start + n);
      assert |r| == |rest| + 1;
      MulStep(|r|, n);
      MulStep(|rest|, n);
    }
  }

  /** `chunks(lst, n)` for a positive `n`: chunk `k` is `lst[k * n:k * n + n]`,
      and there are `ceil(len(lst) / n)` chunks. */
  lemma ChunksSlices<T>(lst: seq<T>, n: int)
    requires n > 0
    ensures Chunks(lst, n).Success?
    ensures var r := Chunks(lst, n).value;
            forall k :: 0 <= k < |r| ==> k * n < |lst| && r[k] == lst[k * n .. Min(k * n + n, |lst|)]
    ensures var r := Chunks(lst, n).value;
            (|r| - 1) * n < |lst| <= |r| * n
  {
    ChunksFromSlices(lst, n, 0);
    ChunksFromCount(lst, n, 0);
  }

  /** Concatenating the chunks gives the list back. */
  lemma {:induction false} ChunksFromConcat<T>(lst: seq<T>, n: nat, start: nat)
    requires n > 0 && start <= |lst|
    ensures Concat(ChunksFrom(lst, n, start)) == lst[start..]
    decreases |lst| - start
  {
    if start < |lst| {
      var next := Min(start + n, |lst|);
      ChunksFromConcat(lst, n, next);
      if next == |lst| {
        assert ChunksFrom(lst, n, start + n) == [];
      } else {
        assert next == start + n;
      }
      assert lst[start..] == lst[start .. next] + lst[next..];
    }
  }

  /** `chunks` loses and reorders nothing: the chunks joined are the list. */
  lemma ChunksConcat<T>(lst: seq<T>, n: int)
    requires n > 0
    ensures Chunks(lst, n).Success? && Concat(Chunks(lst, n).value) == lst
  {
    ChunksFromConcat(lst, n, 0);
    assert lst[0..] == lst;
  }

  // ---------------------------------------------------------------------------
  // resolve_symbols

  /** The end of a lazy `.*?}` started at `j`: the first `}` at or after `j`,
      provided no newline comes before it (`.` does not match a newline). */
  function CloseAt(s: string, j: nat): (r: Option<nat>)
    ensures r.Some? ==> j <= r.value < |s| && s[r.value] == '}'
    decreases |s| - j
  {
    if j >= |s| then None
    else if s[j] == '}' then Some(j)
    else if s[j] == '\n' then None
    else CloseAt(s, j + 1)
  }

  /** The end found is the first `}`, and no newline comes before it. */
  lemma {:induction false} CloseAtSome(s: string, j: nat)
    requires CloseAt(s, j).Some?
    ensures forall i :: j <= i < CloseAt(s, j).value ==> s[i] != '}' && s[i] != '\n'
    decreases |s| - j
  {
    if s[j] != '}' {
      CloseAtSome(s, j + 1);
    }
  }

  /** Without an end, every later `}` has a newline before it. */
  lemma {:induction false} CloseAtNone(s: string, j: nat)
    requires CloseAt(s, j).None?
    ensures forall q :: j <= q < |s| && s[q] == '}' ==> exists i :: j <= i < q && s[i] == '\n'
    decreases |s| - j
  {
    if j < |s| && s[j] != '\n' {
      CloseAtNone(s, j + 1);
    }
  }

  /** The text of a match of `{.*?}` for a symbol. */
  function Brace(symbol: string): (b: string)
    ensures |b| == |symbol| + 2 && b[0] == '{' && b[|b| - 1] == '}' && b[1 .. |b| - 1] == symbol
  {
    "{" + symbol + "}"
  }

  /** A symbol a match can hold: no `}` and no newline. */
  predicate IsSymbol(symbol: string) {
    forall i :: 0 <= i < |symbol| ==> symbol[i] != '}' && symbol[i] != '\n'
  }

  /** `re.findall(r'{.*?}', s[p:])`, each match given by the symbol between
      its braces: the matches run left to right without overlapping, and a
      `{` with no match is skipped. */
  function FindSymbols(s: string, p: nat): (r: seq<string>)
    decreases |s| - p
  {
    if p >= |s| then []
    else if s[p] == '{' then
      match CloseAt(s, p + 1)
      case Some(q) => [s[p + 1 .. q]] + FindSymbols(s, q + 1)
      case None => FindSymbols(s, p + 1)
    else FindSymbols(s, p + 1)
  }

  /** Every match holds a symbol: no `}` and no newline between its braces. */
  lemma {:induction false} FindSymbolsAreSymbols(s: string, p: nat)
    ensures forall symbol :: symbol in FindSymbols(s, p) ==> IsSymbol(symbol)
    decreases |s| - p
  {
    if p < |s| && s[p] == '{' && CloseAt(s, p + 1).Some? {
      var q := CloseAt(s, p + 1).value;
      CloseAtSome(s, p + 1);
      assert IsSymbol(s[p + 1 .. q]);
      FindSymbolsAreSymbols(s, q + 1);
    } else if p < |s| {
      FindSymbolsAreSymbols(s, p + 1);
    }
  }

  /** The `for` loop of `resolve_symbols`: for every match in turn, the
      match replaced everywhere in the current name by its symbol's value;
      a symbol missing from the map is a `KeyError`. */
  function ReplaceSymbols(symbolMap: map<string, string>, symbols: seq<string>, block: string)
    : (r: Result<string, Exception>)
    ensures r.Failure? ==> exists k :: 0 <= k < |symbols| && r.error == KeyError(symbols[k]) && symbols[k] !in symbolMap
    decreases |symbols|
  {
    if |symbols| == 0 then Success(block)
    else if symbols[0] !in symbolMap then Failure(KeyError(symbols[0]))
    else
      var r := ReplaceSymbols(symbolMap, symbols[1..], ReplaceAll(block, Brace(symbols[0]), symbolMap[symbols[0]]));
      assert r.Failure? ==> exists k :: 1 <= k < |symbols| && r.error == KeyError(symbols[k]) && symbols[k] !in symbolMap;
      r
  }

  /** `resolve_symbols`: a missing `symbol_map` setting is an empty map. */
  function ResolveSymbols(symbolMap: Option<map<string, string>>, block: string): (r: Result<string, Exception>)
    ensures r.Failure? ==> exists symbol :: symbol in FindSymbols(block, 0) && r.error == KeyError(symbol)
    ensures symbolMap.None? && FindSymbols(block, 0) != [] ==> r == Failure(KeyError(FindSymbols(block, 0)[0]))
  {
    var m := if symbolMap.Some? then symbolMap.value else map[];
    ReplaceSymbols(m, FindSymbols(block, 0), block)
  }

  /** The loop succeeds exactly when every match names a symbol of the map;
      otherwise it fails on the first match that does not. */
  lemma {:induction false} ReplaceSymbolsKeys(symbolMap: map<string, string>, symbols: seq<string>, block: string)
    ensures ReplaceSymbols(symbolMap, symbols, block).Success?
        <==> forall k :: 0 <= k < |symbols| ==> symbols[k] in symbolMap
    ensures forall k :: 0 <= k < |symbols| && symbols[k] !in symbolMap
                       && (forall j :: 0 <= j < k ==> symbols[j] in symbolMap)
              ==> ReplaceSymbols(symbolMap, symbols, block) == Failure(KeyError(symbols[k]))
    decreases |symbols|
  {
    if |symbols| > 0 && symbols[0] in symbolMap {
      var next := ReplaceAll(block, Brace(symbols[0]), symbolMap[symbols[0]]);
      ReplaceSymbolsKeys(symbolMap, symbols[1..], next);
      assert forall k :: 1 <= k < |symbols| ==> symbols[k] == symbols[1..][k - 1];
    }
  }

  /** `resolve_symbols` succeeds exactly when every `{name}` of the block
      names a symbol of the map. */
  lemma ResolveSymbolsKeys(symbolMap: map<string, string>, block: string)
    ensures ResolveSymbols(Some(symbolMap), block).Success?
        <==> forall symbol :: symbol in FindSymbols(block, 0) ==> symbol in symbolMap
  {
    var symbols := FindSymbols(block, 0);
    ReplaceSymbolsKeys(symbolMap, symbols, block);
    assert forall symbol :: symbol in symbols <==> exists k :: 0 <= k < |symbols| && symbols[k] == symbol;
  }

  /** A string without `{` has no matches. */
  lemma {:induction false} FindSymbolsNone(s: string, p: nat)
    requires forall i :: p <= i < |s| ==> s[i] != '{'
    ensures FindSymbols(s, p) == []
    decreases |s| - p
  {
    if p < |s| {
      FindSymbolsNone(s, p + 1);
    }
  }

  /** A block name without `{` is returned unchanged, whatever the map. */
  lemma ResolveSymbolsPlain(symbolMap: Option<map<string, string>>, block: string)
    requires forall i :: 0 <= i < |block| ==> block[i] != '{'
    ensures ResolveSymbols(symbolMap, block) == Success(block)
  {
    FindSymbolsNone(block, 0);
  }

  /** `replace` leaves a string without the target unchanged. */
  lemma {:induction false} ReplaceAllAbsent(s: string, target: string, value: string)
    requires |target| > 0 && !Contains(s, target)
    ensures ReplaceAll(s, target, value) == s
    decreases |s|
  {
    if |s| >= |target| {
      ReplaceAllAbsent(s[1..], target, value);
      assert s == [s[0]] + s[1..];
    }
  }

  /** The intended meaning of `resolve_symbols`, stated independently of the
      `replace` loop: one left-to-right pass over `s[p:]` in which every match
      of `{.*?}` whose symbol is in `done` and in the map is replaced by its
      value, and every other character is copied. */
  function SubstFrom(s: string, m: map<string, string>, done: set<string>, p: nat): string
    decreases |s| - p
  {
    if p >= |s| then ""
    else if s[p] == '{' && CloseAt(s, p + 1).Some? then
      var q := CloseAt(s, p + 1).value;
      (if s[p + 1 .. q] in done && s[p + 1 .. q] in m then m[s[p + 1 .. q]] else s[p .. q + 1])
      + SubstFrom(s, m, done, q + 1)
    else [s[p]] + SubstFrom(s, m, done, p + 1)
  }

  /** Every match of `s` replaced, in one pass, by its symbol's value. */
  function Substitute(s: string, m: map<string, string>): string {
    SubstFrom(s, m, m.Keys, 0)
  }

  /** The symbols of a list, as a set. */
  function Elements(symbols: seq<string>): set<string> {
    set y | y in symbols
  }

  /** Splitting a suffix of `s` at `i`. */
  lemma SuffixAt(s: string, p: nat, i: nat)
    requires p <= i <= |s|
    ensures s[p..] == s[p..i] + s[i..]
  {
  }

  /** A match is its name in braces. */
  lemma CloseAtBraceSlice(s: string, p: nat, q: nat)
    requires p < |s| && s[p] == '{' && CloseAt(s, p + 1) == Some(q)
    ensures s[p .. q + 1] == Brace(s[p + 1 .. q])
  {
  }

  /** The matches from any other character on are those after it. */
  lemma FindSymbolsAtChar(s: string, p: nat)
    requires p < |s| && !(s[p] == '{' && CloseAt(s, p + 1).Some?)
    ensures FindSymbols(s, p) == FindSymbols(s, p + 1)
  {
  }

  /** A pass that replaces nothing copies a match as it stands. */
  lemma SubstFromCopy(s: string, m: map<string, string>, p: nat, q: nat)
    requires p < |s| && s[p] == '{' && CloseAt(s, p + 1) == Some(q)
    ensures SubstFrom(s, m, {}, p) == s[p .. q + 1] + SubstFrom(s, m, {}, q + 1)
  {
  }

  /** The matches from a `{name}` on: its name, then the matches after it. */
  lemma FindSymbolsAtMatch(s: string, p: nat, q: nat)
    requires p < |s| && s[p] == '{' && CloseAt(s, p + 1) == Some(q)
    ensures FindSymbols(s, p) == [s[p + 1 .. q]] + FindSymbols(s, q + 1)
  {
  }

  /** The step of `SubstFromNothing` at a match, given the step after it. */
  lemma NothingAtMatch(s: string, m: map<string, string>, p: nat, q: nat)
    requires p < |s| && s[p] == '{' && CloseAt(s, p + 1) == Some(q)
    requires SubstFrom(s, m, {}, q + 1) == s[q + 1 ..]
    ensures SubstFrom(s, m, {}, p) == s[p..]
  {
    SubstFromCopy(s, m, p, q);
    SuffixAt(s, p, q + 1);
  }

  /** The step of `SubstFromNothing` at a copied character, given the step after it. */
  lemma NothingAtChar(s: string, m: map<string, string>, p: nat)
    requires p < |s| && !(s[p] == '{' && CloseAt(s, p + 1).Some?)
    requires SubstFrom(s, m, {}, p + 1) == s[p + 1 ..]
    ensures SubstFrom(s, m, {}, p) == s[p..]
  {
    SuffixAt(s, p, p + 1);
    assert s[p .. p + 1] == [s[p]];
  }

  /** A pass that replaces nothing copies the text. */
  lemma {:induction false} SubstFromNothing(s: string, m: map<string, string>, p: nat)
    requires p <= |s|
    ensures SubstFrom(s, m, {}, p) == s[p..]
    decreases |s| - p
  {
    if p < |s| && s[p] == '{' && CloseAt(s, p + 1).Some? {
      var q := CloseAt(s, p + 1).value;
      SubstFromNothing(s, m, q + 1);
      NothingAtMatch(s, m, p, q);
    } else if p < |s| {
      SubstFromNothing(s, m, p + 1);
      NothingAtChar(s, m, p);
    }
  }

  /** The pass depends on `done` only through the symbols that occur. */
  lemma {:induction false} SubstFromSymbols(s: string, m: map<string, string>, d1: set<string>, d2: set<string>, p: nat)
    requires forall y :: y in FindSymbols(s, p) ==> (y in d1 <==> y in d2)
    ensures SubstFrom(s, m, d1, p) == SubstFrom(s, m, d2, p)
    decreases |s| - p
  {
    if p < |s| {
      if s[p] == '{' && CloseAt(s, p + 1).Some? {
        var q := CloseAt(s, p + 1).value;
        FindSymbolsAtMatch(s, p, q);
        SubstFromAtMatch(s, m, d1, p, q);
        SubstFromAtMatch(s, m, d2, p, q);
        SubstFromSymbols(s, m, d1, d2, q + 1);
      } else {
        SubstFromSymbols(s, m, d1, d2, p + 1);
      }
    }
  }

  /** `replace` leaves a prefix alone when no occurrence of the target starts in it. */
  lemma {:induction false} ReplaceAllAfter(a: string, b: string, target: string, value: string)
    requires |target| > 0
    requires forall i :: 0 <= i < |a| ==> !StartsWith((a + b)[i..], target)
    ensures ReplaceAll(a + b, target, value) == a + ReplaceAll(b, target, value)
    decreases |a|
  {
    var t := a + b;
    if |a| == 0 {
      assert t == b;
    } else if |t| < |target| {
      assert ReplaceAll(b, target, value) == b;
    } else {
      assert t[0..] == t;
      assert ReplaceAll(t, target, value) == [t[0]] + ReplaceAll(t[1..], target, value);
      assert t[1..] == a[1..] + b;
      forall i | 0 <= i < |a[1..]|
        ensures !StartsWith((a[1..] + b)[i..], target)
      {
        assert (a[1..] + b)[i..] == t[i + 1 ..];
      }
      ReplaceAllAfter(a[1..], b, target, value);
      assert a == [a[0]] + a[1..];
    }
  }

  /** No occurrence of a `{...}` starts in a text without `{`. */
  lemma NoOpenAfter(a: string, b: string, symbol: string)
    requires Excludes(a, {'{'})
    ensures forall i :: 0 <= i < |a| ==> !StartsWith((a + b)[i..], Brace(symbol))
  {
    forall i | 0 <= i < |a|
      ensures !StartsWith((a + b)[i..], Brace(symbol))
    {
      assert (a + b)[i..][0] == a[i];
    }
  }

  /** No occurrence of `{x}` starts inside a different match `{y}`. */
  lemma BraceAfter(y: string, b: string, x: string)
    requires IsSymbol(x) && IsSymbol(y) && Excludes(y, {'{'}) && x != y
    ensures forall i :: 0 <= i < |Brace(y)| ==> !StartsWith((Brace(y) + b)[i..], Brace(x))
  {
    var t := Brace(y) + b;
    forall i | 0 <= i < |Brace(y)|
      ensures !StartsWith(t[i..], Brace(x))
    {
      if i > 0 {
        assert t[i..][0] == t[i] == Brace(y)[i];
        if i <= |y| {
          assert Brace(y)[i] == y[i - 1];
        }
      } else if |x| < |y| {
        assert t[0..][|x| + 1] == y[|x|] != Brace(x)[|x| + 1];
      } else if |y| < |x| {
        assert t[0..][|y| + 1] == '}' != x[|y|] == Brace(x)[|y| + 1];
      } else {
        var k :| 0 <= k < |x| && x[k] != y[k];
        assert t[0..][k + 1] == y[k] != x[k] == Brace(x)[k + 1];
      }
    }
  }

  /** After an unmatched `{`, the pass can never start with `x}`: a newline
      comes before the next `}`, and no match is replaced before it. */
  lemma {:induction false} SubstFromUnclosed(s: string, m: map<string, string>, done: set<string>, j: nat, x: string)
    requires CloseAt(s, j).None? && IsSymbol(x)
    ensures !StartsWith(SubstFrom(s, m, done, j), x + "}")
    decreases |s| - j
  {
    if j < |s| {
      var rest := SubstFrom(s, m, done, j + 1);
      assert SubstFrom(s, m, done, j) == [s[j]] + rest;
      if |x| > 0 && StartsWith([s[j]] + rest, x + "}") {
        assert x[0] == (x + "}")[0] == ([s[j]] + rest)[0] == s[j];
        assert s[j] != '\n';
        assert CloseAt(s, j + 1).None?;
        var x' := x[1..];
        assert IsSymbol(x');
        assert ([s[j]] + rest)[1..] == rest && (x + "}")[1..] == x' + "}";
        SubstFromUnclosed(s, m, done, j + 1, x');
      } else if |x| == 0 {
        assert (x + "}")[0] == '}';
      }
    }
  }

  /** Replacing `{x}` in a match's piece followed by more text. */
  lemma ReplacePiece(y: string, b: string, x: string, m: map<string, string>, done: set<string>)
    requires x in m && IsSymbol(x) && IsSymbol(y) && Excludes(y, {'{'})
    requires y in done && y in m ==> Excludes(m[y], {'{'})
    ensures ReplaceAll((if y in done && y in m then m[y] else Brace(y)) + b, Brace(x), m[x])
         == (if y in done + {x} && y in m then m[y] else Brace(y)) + ReplaceAll(b, Brace(x), m[x])
  {
    var t := Brace(x);
    if y in done && y in m {
      NoOpenAfter(m[y], b, x);
      ReplaceAllAfter(m[y], b, t, m[x]);
    } else if y == x {
      assert StartsWith(t + b, t);
      assert (t + b)[|t|..] == b;
    } else {
      BraceAfter(y, b, x);
      ReplaceAllAfter(Brace(y), b, t, m[x]);
    }
  }

  /** Replacing `{x}` in a copied character followed by more text: a `{` is
      copied only when unmatched, and then the text after it does not start
      with `x}`. */
  lemma ReplaceChar(c: char, b: string, x: string, v: string)
    requires IsSymbol(x)
    requires c == '{' ==> !StartsWith(b, x + "}")
    ensures ReplaceAll([c] + b, Brace(x), v) == [c] + ReplaceAll(b, Brace(x), v)
  {
    var t := Brace(x);
    if c == '{' {
      assert ([c] + b)[1..] == b;
      assert t[1..] == x + "}";
    }
    assert ([c] + b)[0..] == [c] + b;
    ReplaceAllAfter([c], b, t, v);
  }

  /** The pass at a match `{y}`: the piece for `y`, then the pass after it. */
  lemma SubstFromAtMatch(s: string, m: map<string, string>, done: set<string>, p: nat, q: nat)
    requires p < |s| && s[p] == '{' && CloseAt(s, p + 1) == Some(q)
    ensures SubstFrom(s, m, done, p)
         == (if s[p + 1 .. q] in done && s[p + 1 .. q] in m then m[s[p + 1 .. q]] else Brace(s[p + 1 .. q]))
            + SubstFrom(s, m, done, q + 1)
  {
    CloseAtBraceSlice(s, p, q);
  }

  /** The step of `SubstFromStep` at a match `{y}`, given the step after it. */
  lemma StepAtMatch(s: string, m: map<string, string>, done: set<string>, p: nat, q: nat, x: string)
    requires x in m && IsSymbol(x)
    requires p < |s| && s[p] == '{' && CloseAt(s, p + 1) == Some(q)
    requires Excludes(s[p + 1 .. q], {'{'})
    requires s[p + 1 .. q] in done && s[p + 1 .. q] in m ==> Excludes(m[s[p + 1 .. q]], {'{'})
    requires ReplaceAll(SubstFrom(s, m, done, q + 1), Brace(x), m[x]) == SubstFrom(s, m, done + {x}, q + 1)
    ensures ReplaceAll(SubstFrom(s, m, done, p), Brace(x), m[x]) == SubstFrom(s, m, done + {x}, p)
  {
    CloseAtSome(s, p + 1);
    SubstFromAtMatch(s, m, done, p, q);
    SubstFromAtMatch(s, m, done + {x}, p, q);
    ReplacePiece(s[p + 1 .. q], SubstFrom(s, m, done, q + 1), x, m, done);
  }

  /** The step of `SubstFromStep` at a copied character, given the step after it. */
  lemma StepAtChar(s: string, m: map<string, string>, done: set<string>, p: nat, x: string)
    requires x in m && IsSymbol(x)
    requires p < |s| && !(s[p] == '{' && CloseAt(s, p + 1).Some?)
    requires ReplaceAll(SubstFrom(s, m, done, p + 1), Brace(x), m[x]) == SubstFrom(s, m, done + {x}, p + 1)
    ensures ReplaceAll(SubstFrom(s, m, done, p), Brace(x), m[x]) == SubstFrom(s, m, done + {x}, p)
  {
    if s[p] == '{' {
      SubstFromUnclosed(s, m, done, p + 1, x);
    }
    ReplaceChar(s[p], SubstFrom(s, m, done, p + 1), x, m[x]);
  }

  /** One turn of the loop: replacing `{x}` everywhere in the pass over
      `done` gives the pass over `done` and `x`, provided no match and no
      value already substituted holds a `{`. */
  lemma {:induction false} SubstFromStep(s: string, m: map<string, string>, done: set<string>, p: nat, x: string)
    requires x in m && IsSymbol(x)
    requires forall y :: y in FindSymbols(s, p) ==> Excludes(y, {'{'})
    requires forall y :: y in FindSymbols(s, p) && y in done && y in m ==> Excludes(m[y], {'{'})
    ensures ReplaceAll(SubstFrom(s, m, done, p), Brace(x), m[x]) == SubstFrom(s, m, done + {x}, p)
    decreases |s| - p
  {
    if p >= |s| {
      assert ReplaceAll("", Brace(x), m[x]) == "";
    } else if s[p] == '{' && CloseAt(s, p + 1).Some? {
      var q := CloseAt(s, p + 1).value;
      FindSymbolsAtMatch(s, p, q);
      assert s[p + 1 .. q] in FindSymbols(s, p);
      SubstFromStep(s, m, done, q + 1, x);
      StepAtMatch(s, m, done, p, q, x);
    } else {
      FindSymbolsAtChar(s, p);
      SubstFromStep(s, m, done, p + 1, x);
      StepAtChar(s, m, done, p, x);
    }
  }

  /** The loop over the remaining matches, started from the pass over `done`,
      ends in the pass over `done` and every symbol of the loop. */
  lemma {:induction false} ReplaceSymbolsPass(s: string, m: map<string, string>, symbols: seq<string>, done: set<string>)
    requires forall k :: 0 <= k < |symbols| ==> symbols[k] in m && IsSymbol(symbols[k])
    requires forall y :: y in FindSymbols(s, 0) ==> Excludes(y, {'{'})
    requires forall y :: y in FindSymbols(s, 0) && y in m ==> Excludes(m[y], {'{'})
    ensures ReplaceSymbols(m, symbols, SubstFrom(s, m, done, 0))
         == Success(SubstFrom(s, m, done + Elements(symbols), 0))
    decreases |symbols|
  {
    if |symbols| == 0 {
      assert done + Elements(symbols) == done;
    } else {
      var x := symbols[0];
      SubstFromStep(s, m, done, 0, x);
      ReplaceSymbolsPass(s, m, symbols[1..], done + {x});
      assert symbols == [x] + symbols[1..];
      assert done + {x} + Elements(symbols[1..]) == done + Elements(symbols);
    }
  }

  /** `resolve_symbols` is the one-pass substitution of every `{name}` by its
      value, when every match names a symbol of the map and neither the
      matched names nor their values hold a `{` (which the `replace` loop
      would otherwise match again, or match inside). */
  lemma ResolveSymbolsSubstitute(m: map<string, string>, s: string)
    requires forall symbol :: symbol in FindSymbols(s, 0) ==>
               symbol in m && Excludes(symbol, {'{'}) && Excludes(m[symbol], {'{'})
    ensures ResolveSymbols(Some(m), s) == Success(Substitute(s, m))
  {
    var symbols := FindSymbols(s, 0);
    FindSymbolsAreSymbols(s, 0);
    SubstFromNothing(s, m, 0);
    assert s[0..] == s;
    ReplaceSymbolsPass(s, m, symbols, {});
    SubstFromSymbols(s, m, {} + Elements(symbols), m.Keys, 0);
  }

  /** Python's `sub in s` holds of every slice of `s`. */
  lemma {:induction false} ContainsAt(s: string, i: nat, sub: string)
    requires i + |sub| <= |s| && s[i .. i + |sub|] == sub
    ensures Contains(s, sub)
    decreases i
  {
    if i > 0 {
      assert s[1..][i - 1 .. i - 1 + |sub|] == sub;
      ContainsAt(s[1..], i - 1, sub);
    }
  }

  /** The step of `FindSymbolsSound` at a match, given the matches after it. */
  lemma SoundAtMatch(s: string, p: nat, q: nat)
    requires p < |s| && s[p] == '{' && CloseAt(s, p + 1) == Some(q)
    requires forall y :: y in FindSymbols(s, q + 1) ==> Contains(s, Brace(y))
    ensures forall y :: y in FindSymbols(s, p) ==> Contains(s, Brace(y))
  {
    FindSymbolsAtMatch(s, p, q);
    CloseAtBraceSlice(s, p, q);
    CloseAtSome(s, p + 1);
    ContainsAt(s, p, Brace(s[p + 1 .. q]));
  }

  /** Every match found is a `{name}` of the text. */
  lemma {:induction false} FindSymbolsSound(s: string, p: nat)
    ensures forall y :: y in FindSymbols(s, p) ==> Contains(s, Brace(y))
    decreases |s| - p
  {
    if p < |s| {
      if s[p] == '{' && CloseAt(s, p + 1).Some? {
        var q := CloseAt(s, p + 1).value;
        FindSymbolsSound(s, q + 1);
        SoundAtMatch(s, p, q);
      } else {
        FindSymbolsSound(s, p + 1);
        FindSymbolsAtChar(s, p);
      }
    }
  }

  /** A `{name}` ends at the first `}` after its `{`. */
  lemma {:induction false} CloseAtBrace(s: string, i: nat, j: nat, x: string)
    requires i < j <= i + |x| + 1 && i + |x| + 2 <= |s| && s[i .. i + |x| + 2] == Brace(x) && IsSymbol(x)
    ensures CloseAt(s, j) == Some(i + |x| + 1)
    decreases i + |x| + 1 - j
  {
    assert s[j] == Brace(x)[j - i];
    if j < i + |x| + 1 {
      assert Brace(x)[j - i] == x[j - i - 1];
      CloseAtBrace(s, i, j + 1, x);
    }
  }

  /** A slice without any of `chars` means the characters it covers are not in `chars`. */
  lemma ExcludesSlice(s: string, a: nat, b: nat, chars: set<char>)
    requires a <= b <= |s| && Excludes(s[a..b], chars)
    ensures forall i :: a <= i < b ==> s[i] !in chars
  {
    forall i | a <= i < b
      ensures s[i] !in chars
    {
      assert s[a..b][i - a] == s[i];
    }
  }

  /** A `{name}` at the scan position is the next match. */
  lemma FindSymbolsAt(s: string, i: nat, x: string)
    requires i + |x| + 2 <= |s| && s[i .. i + |x| + 2] == Brace(x) && IsSymbol(x)
    ensures FindSymbols(s, i) == [x] + FindSymbols(s, i + |x| + 2)
  {
    assert s[i] == s[i .. i + |x| + 2][0] == '{';
    CloseAtBrace(s, i, i + 1, x);
    forall k | 0 <= k < |x|
      ensures s[i + 1 + k] == x[k]
    {
      assert s[i .. i + |x| + 2][k + 1] == Brace(x)[k + 1];
    }
    assert s[i + 1 .. i + |x| + 1] == x;
  }

  /** A match without `{` that starts before a `{name}` ends before it. */
  lemma MatchBefore(s: string, p: nat, q: nat, i: nat, x: string)
    requires p < i && i + |x| + 2 <= |s| && s[i .. i + |x| + 2] == Brace(x)
    requires s[p] == '{' && CloseAt(s, p + 1) == Some(q) && Excludes(s[p + 1 .. q], {'{'})
    ensures q < i
  {
    assert s[i] == s[i .. i + |x| + 2][0] == '{';
    ExcludesSlice(s, p + 1, q, {'{'});
  }

  /** Every `{name}` of the text, with a name free of `}` and newlines, is
      found, provided no match holds a `{` (in `{b{a}`, the only match is
      `b{a`, and `{a}` is not found). */
  lemma {:induction false} FindSymbolsComplete(s: string, p: nat, i: nat, x: string)
    requires p <= i && i + |x| + 2 <= |s| && s[i .. i + |x| + 2] == Brace(x) && IsSymbol(x)
    requires forall y :: y in FindSymbols(s, p) ==> Excludes(y, {'{'})
    ensures x in FindSymbols(s, p)
    decreases |s| - p
  {
    if p == i {
      FindSymbolsAt(s, i, x);
    } else if s[p] == '{' && CloseAt(s, p + 1).Some? {
      var q := CloseAt(s, p + 1).value;
      FindSymbolsAtMatch(s, p, q);
      assert s[p + 1 .. q] in FindSymbols(s, p);
      MatchBefore(s, p, q, i, x);
      FindSymbolsComplete(s, q + 1, i, x);
    } else {
      FindSymbolsAtChar(s, p);
      FindSymbolsComplete(s, p + 1, i, x);
    }
  }

  /** A name that is one symbol reference resolves to the symbol's value. */
  lemma ResolveSymbolsExample()
    ensures ResolveSymbols(Some(map["w" := "oak"]), "{w}") == Success("oak")
  {
    var s := "{w}";
    assert s[0] == '{' && s[1] == 'w' && s[2] == '}' && s[1 .. 2] == "w";
    assert CloseAt(s, 1) == CloseAt(s, 2) == Some(2);
    assert FindSymbols(s, 3) == [];
    assert FindSymbols(s, 0) == ["w"];
    assert StartsWith(s, Brace("w"));
    assert ReplaceAll(s, Brace("w"), "oak") == "oak" + ReplaceAll("", Brace("w"), "oak") == "oak";
  }
}
