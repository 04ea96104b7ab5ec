/** The pieces of Python's built-in behaviour that the debate engine relies on:
    exceptions as values, int() on strings, str(), str.lower(), substring tests,
    list indexing with negative indices, and str.replace. */
module Py {

  datatype Option<T> = None | Some(value: T)

  /** The exceptions the modelled code can raise (and does not catch). */
  datatype PyError =
    | ValueError          // int() of a non-numeric string
    | IndexError          // list index out of range
    | TypeError           // wrong operand type (list index by str, `in` on an int, ...)
    | KeyError            // missing dict key
    | AttributeError      // missing method, such as .values() on a list
    | JsonDecodeError     // json.loads on malformed text
    | UnboundLocalError   // a local read before any assignment

  datatype Result<T> = Ok(value: T) | Err(error: PyError)

  /** The Python values the modelled functions return. */
  datatype Value = Str(s: string) | Int(i: int) | Bool(b: bool) | NoneValue

  /** What a call does: return a value or raise. */
  datatype Outcome = Return(value: Value) | Raise(error: PyError)

  // ---------------------------------------------------------------- characters

  predicate IsDigit(c: char) { '0' <= c <= '9' }

  /** The characters that str.isspace() accepts, which int() strips: the ASCII
      controls and the space, NEL, the no-break space and the other Unicode spaces
      and separators. */
  predicate IsSpace(c: char)
  {
    var n := c as int;
    || c == ' ' || 9 <= n <= 13 || 28 <= n <= 31 || n == 0x85 || n == 0xA0 || n == 0x1680
    || 0x2000 <= n <= 0x200A || n == 0x2028 || n == 0x2029 || n == 0x202F || n == 0x205F || n == 0x3000
  }

  function LowerChar(c: char): char
  {
    if 'A' <= c <= 'Z' then (c as int - 'A' as int + 'a' as int) as char else c
  }

  /** str.lower(), on the ASCII letters. */
  function Lower(s: string): (r: string)
    ensures |r| == |s|
    ensures forall i :: 0 <= i < |s| ==> r[i] == LowerChar(s[i])
  {
    if s == [] then [] else [LowerChar(s[0])] + Lower(s[1..])
  }

  /** Lowercasing is a projection: a lowercased string is its own lowercase. */
  lemma LowerIdempotent(s: string)
    ensures Lower(Lower(s)) == Lower(s)
  {
  }

  // ---------------------------------------------------------------- substrings

  predicate StartsWith(s: string, p: string) { |p| <= |s| && s[..|p|] == p }

  /** Python's `sub in s` for two strings. */
  predicate Contains(s: string, sub: string)
    decreases |s|
  {
    StartsWith(s, sub) || (|s| > 0 && Contains(s[1..], sub))
  }

  /** A substring of a prefix is a substring of the whole. */
  lemma {:induction false} ContainsPrefix(a: string, b: string, sub: string)
    requires Contains(a, sub)
    ensures Contains(a + b, sub)
    decreases |a|
  {
    if StartsWith(a, sub) {
      assert (a + b)[..|sub|] == a[..|sub|];
    } else {
      assert (a + b)[1..] == a[1..] + b;
      ContainsPrefix(a[1..], b, sub);
    }
  }

  /** A substring of a suffix is a substring of the whole. */
  lemma {:induction false} ContainsSuffix(a: string, b: string, sub: string)
    requires Contains(b, sub)
    ensures Contains(a + b, sub)
    decreases |a|
  {
    if a == [] {
      assert a + b == b;
    } else {
      assert (a + b)[1..] == a[1..] + b;
      ContainsSuffix(a[1..], b, sub);
      assert |a + b| > 0 && Contains((a + b)[1..], sub);
    }
  }

  lemma ContainsSelf(s: string)
    ensures Contains(s, s)
  {
    assert StartsWith(s, s);
  }

  // ---------------------------------------------------------------- int()

  function StripLeft(s: string): (r: string)
    ensures |r| <= |s|
    ensures r != [] ==> !IsSpace(r[0])
  {
    if s != [] && IsSpace(s[0]) then StripLeft(s[1..]) else s
  }

  function StripRight(s: string): (r: string)
    ensures |r| <= |s|
    ensures r != [] ==> !IsSpace(r[|r| - 1])
  {
    if s != [] && IsSpace(s[|s| - 1]) then StripRight(s[..|s| - 1]) else s
  }

  /** The string int() looks at once surrounding whitespace is gone. */
  function Strip(s: string): string { StripRight(StripLeft(s)) }

  /** A run of ASCII digits in which single underscores may separate digits:
      digit ('_'? digit)*. */
  predicate DigitRun(d: string)
    decreases |d|
  {
    if |d| <= 1 then |d| == 1 && IsDigit(d[0])
    else IsDigit(d[|d| - 1]) &&
         (DigitRun(d[..|d| - 1]) || (|d| >= 3 && d[|d| - 2] == '_' && DigitRun(d[..|d| - 2])))
  }

  /** The number a digit run denotes (underscores carry no value). */
  function DigitsValue(d: string): nat
  {
    if d == [] then 0
    else if IsDigit(d[|d| - 1]) then DigitsValue(d[..|d| - 1]) * 10 + (d[|d| - 1] as int - '0' as int)
    else DigitsValue(d[..|d| - 1])
  }

  /** int(s) in base 10: surrounding whitespace, an optional sign, then a digit run.
      None is the ValueError that int() raises on anything else. */
  function ParseInt(s: string): Option<int>
  {
    ParseStripped(Strip(s))
  }

  /** int() once the surrounding whitespace is gone: an optional sign, then a digit run. */
  function ParseStripped(t: string): Option<int>
  {
    if t != [] && (t[0] == '-' || t[0] == '+') then
      if DigitRun(t[1..]) then
        var magnitude: int := DigitsValue(t[1..]);
        Some(if t[0] == '-' then -magnitude else magnitude)
      else None
    else if DigitRun(t) then Some(DigitsValue(t))
    else None
  }

  function DigitChar(d: nat): char
    requires d < 10
  {
    ('0' as int + d) as char
  }

  /** The decimal digits of a natural number, as str() writes them. */
  function NatToStr(n: nat): (r: string)
    ensures r != [] && forall i :: 0 <= i < |r| ==> IsDigit(r[i])
  {
    if n < 10 then [DigitChar(n)] else NatToStr(n / 10) + [DigitChar(n % 10)]
  }

  /** str() of an int. */
  function IntToStr(n: int): string
  {
    if n < 0 then "-" + NatToStr(-n) else NatToStr(n)
  }

  lemma {:induction false} DigitsOfNat(n: nat)
    ensures DigitRun(NatToStr(n)) && DigitsValue(NatToStr(n)) == n
  {
    var r := NatToStr(n);
    if n >= 10 {
      DigitsOfNat(n / 10);
      assert r[..|r| - 1] == NatToStr(n / 10);
    }
  }

  lemma StripNoSpace(s: string)
    requires s != [] && !IsSpace(s[0]) && !IsSpace(s[|s| - 1])
    ensures Strip(s) == s
  {
  }

  /** int() of a digit run with nothing around it is its value. */
  lemma ParseDigits(d: string)
    requires DigitRun(d) && IsDigit(d[0]) && IsDigit(d[|d| - 1])
    ensures ParseInt(d) == Some(DigitsValue(d))
  {
    StripNoSpace(d);
    ParseUnsigned(d);
  }

  lemma ParseUnsigned(d: string)
    requires DigitRun(d) && IsDigit(d[0])
    ensures ParseStripped(d) == Some(DigitsValue(d))
  {
    assert !(d[0] == '-' || d[0] == '+');
  }

  /** int() of a minus sign and a digit run is the negated value. */
  lemma ParseNegDigits(d: string, s: string)
    requires DigitRun(d) && IsDigit(d[|d| - 1]) && s == "-" + d
    ensures ParseInt(s) == Some(-(DigitsValue(d) as int))
  {
    assert s[|s| - 1] == d[|d| - 1];
    StripNoSpace(s);
    ParseNegative(d, s);
  }

  lemma ParseNegative(d: string, s: string)
    requires DigitRun(d) && s == "-" + d
    ensures ParseStripped(s) == Some(-(DigitsValue(d) as int))
  {
    assert s[0] == '-' && s[1..] == d;
  }

  /** int() reads back what str() writes: int(str(n)) == n. */
  lemma ParseIntOfIntToStr(n: int)
    ensures ParseInt(IntToStr(n)) == Some(n)
  {
    var s := IntToStr(n);
    if n < 0 {
      var m: nat := -n;
      var d := NatToStr(m);
      assert s == "-" + d;
      DigitsOfNat(m);
      ParseNegDigits(d, s);
    } else {
      var d := NatToStr(n);
      assert s == d;
      DigitsOfNat(n);
      ParseDigits(d);
    }
  }

  // ---------------------------------------------------------------- str()

  /** str() of a value. */
  function PyStr(v: Value): string
  {
    match v
    case Str(s) => s
    case Int(i) => IntToStr(i)
    case Bool(b) => if b then "True" else "False"
    case NoneValue => "None"
  }

  /** int() of a value: a str is parsed, a bool is 0 or 1, None raises TypeError. */
  function ToInt(v: Value): (r: Result<int>)
    ensures v.Int? ==> r == Ok(v.i)
    ensures v.Str? ==> (r.Ok? <==> ParseInt(v.s).Some?)
  {
    match v
    case Int(i) => Ok(i)
    case Bool(b) => Ok(if b then 1 else 0)
    case Str(s) => if ParseInt(s).Some? then Ok(ParseInt(s).value) else Err(ValueError)
    case NoneValue => Err(TypeError)
  }

  // ---------------------------------------------------------------- lists

  /** xs[k] for an int k: negative indices count from the end; anything else raises IndexError. */
  function PyIndex<T>(xs: seq<T>, k: int): (r: Result<T>)
    ensures r.Ok? <==> -|xs| <= k < |xs|
    ensures 0 <= k < |xs| ==> r == Ok(xs[k])
    ensures -|xs| <= k < 0 ==> r == Ok(xs[|xs| + k])
  {
    if 0 <= k < |xs| then Ok(xs[k])
    else if -|xs| <= k < 0 then Ok(xs[|xs| + k])
    else Err(IndexError)
  }

  /** `xs[v]` where v is whatever Python value was computed as the index:
      a str or None index raises TypeError. */
  function IndexByValue<T>(xs: seq<T>, v: Value): Result<T>
  {
    match v
    case Int(k) => PyIndex(xs, k)
    case Bool(b) => PyIndex(xs, if b then 1 else 0)
    case Str(_) => Err(TypeError)
    case NoneValue => Err(TypeError)
  }

  /** `xs[int(s)]`: the index is parsed first (ValueError), then applied (IndexError). */
  function IndexByText<T>(xs: seq<T>, s: string): Result<T>
  {
    match ParseInt(s)
    case None => Err(ValueError)
    case Some(k) => PyIndex(xs, k)
  }

  /** `[r for j, r in enumerate(xs) if j != i]`: every entry but the i-th, in order. */
  function Without<T>(xs: seq<T>, i: nat): (r: seq<T>)
    ensures i < |xs| ==> |r| == |xs| - 1
    ensures i < |xs| ==> forall j :: 0 <= j < |r| ==> r[j] == (if j < i then xs[j] else xs[j + 1])
    ensures i >= |xs| ==> r == xs
  {
    if i < |xs| then xs[..i] + xs[i + 1..] else xs
  }

  // ---------------------------------------------------------------- str.replace

  /** s.replace(pat, rep): every non-overlapping occurrence of pat, scanning left to right. */
  function Replace(s: string, pat: string, rep: string): string
  {
    if pat == [] then InsertEverywhere(s, rep) else ReplaceEach(s, pat, rep)
  }

  /** s.replace(pat, rep) for a non-empty pat. */
  function ReplaceEach(s: string, pat: string, rep: string): string
    requires pat != []
    decreases |s|
  {
    if StartsWith(s, pat) then rep + ReplaceEach(s[|pat|..], pat, rep)
    else if s == [] then []
    else [s[0]] + ReplaceEach(s[1..], pat, rep)
  }

  /** s.replace("", rep): rep before every character and at the end. */
  function InsertEverywhere(s: string, rep: string): string
  {
    if s == [] then rep else rep + [s[0]] + InsertEverywhere(s[1..], rep)
  }

  /** A string that differs from pat at position k does not start with it, so its
      first character is kept. */
  lemma ReplaceNoMatch(s: string, pat: string, rep: string, k: nat)
    requires k < |s| && k < |pat| && s[k] != pat[k]
    ensures ReplaceEach(s, pat, rep) == [s[0]] + ReplaceEach(s[1..], pat, rep)
  {
    assert !StartsWith(s, pat) by {
      if |pat| <= |s| { assert s[..|pat|][k] == s[k]; }
    }
  }

  lemma {:induction false} SkipsEach(a: string, b: string, pat: string, rep: string)
    requires pat != [] && forall i :: 0 <= i < |a| ==> a[i] != pat[0]
    ensures ReplaceEach(a + b, pat, rep) == a + ReplaceEach(b, pat, rep)
    decreases |a|
  {
    if a == [] {
      assert a + b == b;
    } else {
      var s := a + b;
      var rest := a[1..];
      assert s[0] == a[0] && a[0] != pat[0];
      ReplaceNoMatch(s, pat, rep, 0);
      assert s[1..] == rest + b;
      assert forall i :: 0 <= i < |rest| ==> rest[i] == a[i + 1];
      SkipsEach(rest, b, pat, rep);
      assert a == [a[0]] + rest;
    }
  }

  /** A replacement leaves alone a leading part that holds no character starting pat. */
  lemma ReplaceSkips(a: string, b: string, pat: string, rep: string)
    requires pat != [] && forall i :: 0 <= i < |a| ==> a[i] != pat[0]
    ensures Replace(a + b, pat, rep) == a + Replace(b, pat, rep)
  {
    SkipsEach(a, b, pat, rep);
  }

  /** A replacement leaves alone a leading part that opens like pat but differs
      from it at the second character, and holds no other character starting pat. */
  lemma ReplaceNearMiss(a: string, b: string, pat: string, rep: string)
    requires 1 < |a| && 1 < |pat| && a[1] != pat[1]
    requires forall i :: 1 <= i < |a| ==> a[i] != pat[0]
    ensures Replace(a + b, pat, rep) == a + Replace(b, pat, rep)
  {
    var s := a + b;
    var rest := a[1..];
    assert s[1] == a[1];
    ReplaceNoMatch(s, pat, rep, 1);
    assert s[1..] == rest + b;
    assert forall i :: 0 <= i < |rest| ==> rest[i] == a[i + 1];
    SkipsEach(rest, b, pat, rep);
    assert a == [a[0]] + rest;
  }

  /** A replacement substitutes an occurrence standing at the front. */
  lemma ReplaceFront(b: string, pat: string, rep: string)
    requires pat != []
    ensures Replace(pat + b, pat, rep) == rep + Replace(b, pat, rep)
  {
    assert StartsWith(pat + b, pat);
    assert (pat + b)[|pat|..] == b;
  }
}
