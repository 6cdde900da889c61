/** The Python string operations the converters rely on: `split`, `join`,
    `startswith`, substring tests, `replace`, `int()` and `str()` of an integer. */
module Strings {
  import opened Wrappers

  /** Python's `str.isspace()`: the characters `str.split()` and `int()` treat as whitespace. */
  predicate IsSpace(c: char) {
    var n := c as int;
    || 9 <= n <= 13 || 28 <= n <= 32 || n == 0x85 || n == 0xA0 || n == 0x1680
    || 0x2000 <= n <= 0x200A || n == 0x2028 || n == 0x2029 || n == 0x202F
    || n == 0x205F || n == 0x3000
  }

  predicate NoSpace(s: string) {
    forall i :: 0 <= i < |s| ==> !IsSpace(s[i])
  }

  /** No character of `s` is one of `chars`. */
  predicate Excludes(s: string, chars: set<char>) {
    forall i :: 0 <= i < |s| ==> s[i] !in chars
  }

  /** Python's `s.startswith(p)`. */
  predicate StartsWith(s: string, p: string) {
    p <= s
  }

  /** Python's `sub in s` on strings. */
  predicate Contains(s: string, sub: string)
    decreases |s|
  {
    StartsWith(s, sub) || (|s| > 0 && Contains(s[1..], sub))
  }

  /** Python's `sep.join(parts)`. */
  function Join(parts: seq<string>, sep: string): string
    decreases |parts|
  {
    if |parts| == 0 then ""
    else if |parts| == 1 then parts[0]
    else parts[0] + sep + Join(parts[1..], sep)
  }

  /** `f'{a}{sep}{b}'` for every pair `(a, b)`, in order. */
  function PairTexts(pairs: seq<(string, string)>, sep: string): seq<string> {
    seq(|pairs|, i requires 0 <= i < |pairs| => pairs[i].0 + sep + pairs[i].1)
  }

  /** Splits `s` at every character of `seps`: Python's `s.split(c)` when
      `seps == {c}`, and `re.split` with a pattern of single-character
      alternatives otherwise. */
  function SplitAny(s: string, seps: set<char>): (parts: seq<string>)
    ensures |parts| >= 1
    ensures forall i :: 0 <= i < |parts| ==> Excludes(parts[i], seps)
    decreases |s|
  {
    if |s| == 0 then [""]
    else
      var rest := SplitAny(s[1..], seps);
      if s[0] in seps then [""] + rest
      else [[s[0]] + rest[0]] + rest[1..]
  }

  /** Python's `s.split(c)`. */
  function Split(s: string, c: char): seq<string> {
    SplitAny(s, {c})
  }

  /** The number of leading non-whitespace characters of `s`. */
  function WordLength(s: string): (n: nat)
    ensures n <= |s|
    ensures forall i :: 0 <= i < n ==> !IsSpace(s[i])
    ensures n < |s| ==> IsSpace(s[n])
    decreases |s|
  {
    if |s| == 0 || IsSpace(s[0]) then 0 else 1 + WordLength(s[1..])
  }

  /** Python's `s.split()` with no argument: the maximal runs of non-whitespace. */
  function Words(s: string): (ws: seq<string>)
    ensures forall i :: 0 <= i < |ws| ==> |ws[i]| > 0 && NoSpace(ws[i])
    decreases |s|
  {
    if |s| == 0 then []
    else if IsSpace(s[0]) then Words(s[1..])
    else
      var n := WordLength(s);
      [s[..n]] + Words(s[n..])
  }

  /** Python's `_, name = s.split(':')`: the part after the only colon, and a
      `ValueError` when there is not exactly one colon. */
  function StripNamespace(s: string): (r: Result<string, Exception>)
    ensures r.Success? <==> |Split(s, ':')| == 2
    ensures r.Success? ==> Excludes(r.value, {':'}) && exists p :: s == p + ":" + r.value
  {
    var parts := Split(s, ':');
    if |parts| == 2 then
      JoinSplit(s, ':');
      assert s == parts[0] + ":" + parts[1];
      Success(parts[1])
    else Failure(ValueError)
  }

  /** Python's `s.replace(target, replacement)`: every non-overlapping occurrence, left to right. */
  function ReplaceAll(s: string, target: string, replacement: string): (r: string)
    requires |target| > 0
    ensures replacement == target ==> r == s
    ensures |replacement| == |target| ==> |r| == |s|
    decreases |s|
  {
    if |s| < |target| then s
    else if StartsWith(s, target) then replacement + ReplaceAll(s[|target|..], target, replacement)
    else [s[0]] + ReplaceAll(s[1..], target, replacement)
  }

  // ---------------------------------------------------------------------------
  // Integers: Python's `int(s)` and `str(n)`.

  predicate IsDigit(c: char) {
    '0' <= c <= '9'
  }

  predicate IsDigits(s: string) {
    |s| > 0 && forall i :: 0 <= i < |s| ==> IsDigit(s[i])
  }

  function DigitsValue(s: string): nat
    requires forall i :: 0 <= i < |s| ==> IsDigit(s[i])
    decreases |s|
  {
    if |s| == 0 then 0
    else
      assert IsDigit(s[|s| - 1]);
      DigitsValue(s[..|s| - 1]) * 10 + (s[|s| - 1] as int - '0' as int)
  }

  function StripStart(s: string): string
    decreases |s|
  {
    if |s| > 0 && IsSpace(s[0]) then StripStart(s[1..]) else s
  }

  function StripEnd(s: string): string
    decreases |s|
  {
    if |s| > 0 && IsSpace(s[|s| - 1]) then StripEnd(s[..|s| - 1]) else s
  }

  /** Python's `int(s)`: surrounding whitespace, an optional sign, then decimal
      digits; anything else is a `ValueError`, here `None`. */
  function ParseInt(s: string): (r: Option<int>)
    ensures IsDigits(s) ==> r == Some(DigitsValue(s))
    ensures |s| > 0 && s[0] == '-' && IsDigits(s[1..]) ==> r == Some(-(DigitsValue(s[1..]) as int))
  {
    var t := StripEnd(StripStart(s));
    if |t| > 0 && (t[0] == '-' || t[0] == '+') then
      if IsDigits(t[1..]) then
        var magnitude: int := DigitsValue(t[1..]);
        Some(if t[0] == '-' then -magnitude else magnitude)
      else None
    else if IsDigits(t) then Some(DigitsValue(t))
    else None
  }

  function Digit(d: nat): char
    requires d < 10
  {
    ('0' as int + d) as char
  }

  function NatToString(n: nat): string
    decreases n
  {
    if n < 10 then [Digit(n)] else NatToString(n / 10) + [Digit(n % 10)]
  }

  /** Python's `str(n)` (and `f'{n}'`) for an integer. */
  function IntToString(n: int): string {
    if n < 0 then "-" + NatToString(-n) else NatToString(n)
  }

  // ---------------------------------------------------------------------------
  // Lemmas.

  lemma JoinPrepend(x: string, parts: seq<string>, sep: string)
    requires |parts| >= 1
    ensures Join([x + parts[0]] + parts[1..], sep) == x + Join(parts, sep)
  {
    if |parts| > 1 {
      assert ([x + parts[0]] + parts[1..])[1..] == parts[1..];
    }
  }

  /** Joining the pieces of a split with the separator gives back the string. */
  lemma {:induction false} JoinSplit(s: string, c: char)
    ensures Join(Split(s, c), [c]) == s
    decreases |s|
  {
    if |s| > 0 {
      var rest := SplitAny(s[1..], {c});
      JoinSplit(s[1..], c);
      if s[0] == c {
        assert ([""] + rest)[1..] == rest;
        assert s == [c] + s[1..];
      } else {
        JoinPrepend([s[0]], rest, [c]);
        assert s == [s[0]] + s[1..];
      }
    }
  }

  lemma {:induction false} SplitAnyNoSeparator(p: string, seps: set<char>)
    requires Excludes(p, seps)
    ensures SplitAny(p, seps) == [p]
    decreases |p|
  {
    if |p| > 0 {
      SplitAnyNoSeparator(p[1..], seps);
      assert p == [p[0]] + p[1..];
    }
  }

  /** Text without separators in front of `t` joins the first part of `t`. */
  lemma {:induction false} SplitAnyPrefix(p: string, t: string, seps: set<char>)
    requires Excludes(p, seps)
    ensures SplitAny(p + t, seps) == [p + SplitAny(t, seps)[0]] + SplitAny(t, seps)[1..]
    decreases |p|
  {
    var tparts := SplitAny(t, seps);
    if |p| > 0 {
      var s := p + t;
      assert s[0] == p[0] && p[0] !in seps;
      assert s[1..] == p[1..] + t;
      assert Excludes(p[1..], seps) by {
        forall i | 0 <= i < |p[1..]| ensures p[1..][i] !in seps {
          assert p[1..][i] == p[i + 1];
        }
      }
      SplitAnyPrefix(p[1..], t, seps);
      var rest := SplitAny(s[1..], seps);
      assert rest == [p[1..] + tparts[0]] + tparts[1..];
      assert SplitAny(s, seps) == [[s[0]] + rest[0]] + rest[1..];
      assert [p[0]] + (p[1..] + tparts[0]) == p + tparts[0];
    } else {
      assert p + t == t;
      assert p + tparts[0] == tparts[0];
      assert tparts == [tparts[0]] + tparts[1..];
    }
  }

  /** Splitting a join at a separator character that no part contains gives
      back the parts. */
  lemma {:induction false} SplitJoin(parts: seq<string>, c: char, seps: set<char>)
    requires |parts| >= 1 && c in seps
    requires forall i :: 0 <= i < |parts| ==> Excludes(parts[i], seps)
    ensures SplitAny(Join(parts, [c]), seps) == parts
    decreases |parts|
  {
    if |parts| == 1 {
      SplitAnyNoSeparator(parts[0], seps);
    } else {
      var tail := Join(parts[1..], [c]);
      SplitJoin(parts[1..], c, seps);
      assert Join(parts, [c]) == parts[0] + ([c] + tail);
      SplitAnyPrefix(parts[0], [c] + tail, seps);
      assert ([c] + tail)[1..] == tail;
      assert SplitAny([c] + tail, seps) == [""] + parts[1..];
      assert parts[0] + "" == parts[0];
      assert parts == [parts[0]] + parts[1..];
    }
  }

  /** The first word of a whitespace-free `a` followed by whitespace is `a`. */
  lemma {:induction false} WordLengthOfWord(a: string, t: string)
    requires NoSpace(a)
    requires |t| == 0 || IsSpace(t[0])
    ensures WordLength(a + t) == |a|
    decreases |a|
  {
    if |a| > 0 {
      var s := a + t;
      assert s[0] == a[0] && !IsSpace(s[0]);
      assert s[1..] == a[1..] + t;
      assert NoSpace(a[1..]) by {
        forall i | 0 <= i < |a[1..]| ensures !IsSpace(a[1..][i]) {
          assert a[1..][i] == a[i + 1];
        }
      }
      WordLengthOfWord(a[1..], t);
      assert WordLength(s) == 1 + WordLength(s[1..]);
    } else {
      assert a + t == t;
    }
  }

  /** A non-empty string without whitespace is its own single word. */
  lemma WordsOfWord(a: string)
    requires |a| > 0 && NoSpace(a)
    ensures Words(a) == [a]
  {
    WordLengthOfWord(a, "");
    assert a + "" == a;
    assert a[|a|..] == "";
  }

  /** `"a b".split()` is `["a", "b"]` for two whitespace-free words. */
  lemma WordsOfPair(a: string, b: string)
    requires |a| > 0 && NoSpace(a) && |b| > 0 && NoSpace(b)
    ensures Words(a + " " + b) == [a, b]
  {
    var s := a + " " + b;
    WordLengthOfWord(a, " " + b);
    assert s == a + (" " + b);
    assert s[..|a|] == a;
    assert s[|a|..] == " " + b;
    assert (" " + b)[1..] == b;
    WordsOfWord(b);
  }

  lemma {:induction false} NatToStringDigits(n: nat)
    ensures IsDigits(NatToString(n))
    ensures DigitsValue(NatToString(n)) == n
    decreases n
  {
    if n >= 10 {
      NatToStringDigits(n / 10);
      var s := NatToString(n);
      assert s[..|s| - 1] == NatToString(n / 10);
    }
  }

  /** `str(n)` is a non-empty run of digits, optionally after a minus sign. */
  lemma IntToStringShape(n: int)
    ensures |IntToString(n)| > 0 && NoSpace(IntToString(n))
    ensures Excludes(IntToString(n), {',', '\n', '>', ' ', ':', '{', '}'})
  {
    var s := IntToString(n);
    if n < 0 {
      NatToStringDigits(-n);
    } else {
      NatToStringDigits(n);
    }
    assert forall i :: 0 <= i < |s| ==> s[i] == '-' || IsDigit(s[i]);
  }

  lemma StripNothing(s: string)
    requires |s| > 0 && !IsSpace(s[0]) && !IsSpace(s[|s| - 1])
    ensures StripEnd(StripStart(s)) == s
  {
  }

  /** `int(str(n)) == n`. */
  lemma ParseIntToString(n: int)
    ensures ParseInt(IntToString(n)) == Some(n)
  {
    var s := IntToString(n);
    if n < 0 {
      NatToStringDigits(-n);
      assert s[1..] == NatToString(-n);
    } else {
      NatToStringDigits(n);
    }
    StripNothing(s);
  }
}
