/**
 * Building blocks shared by the whole model: optional values, JavaScript
 * truthiness, ASCII lower-casing, substring search, number formatting and the
 * `Array.prototype.slice(0, end)` / `filter` idioms the storefront code uses.
 */
module Common {

  datatype Option<T> = None | Some(value: T)
  {
    /** `x ?? d` for a value that may be null or undefined. */
    function GetOr(d: T): T
    {
      if Some? then value else d
    }
  }

  datatype Result<T, E> = Ok(value: T) | Err(error: E)

  /** JavaScript truthiness of a string that may be null/undefined: "" is falsy. */
  predicate TruthyStr(s: Option<string>)
  {
    s.Some? && s.value != ""
  }

  /** JavaScript truthiness of a number that may be null/undefined: 0 is falsy. */
  predicate TruthyNum(x: Option<real>)
  {
    x.Some? && x.value != 0.0
  }

  /** Truthiness of a number known to be an integer (counts, minutes, servings). */
  predicate TruthyInt(x: Option<int>)
  {
    x.Some? && x.value != 0
  }

  /** `a || b` on strings: the first operand when it is truthy. */
  function OrStr(a: Option<string>, b: string): (r: string)
    ensures TruthyStr(a) ==> r == a.value
    ensures !TruthyStr(a) ==> r == b
  {
    if a.Some? && a.value != "" then a.value else b
  }

  // ---------------------------------------------------------------------------
  // Characters and strings

  predicate IsAsciiUpper(c: char) { 'A' <= c <= 'Z' }
  predicate IsAsciiLower(c: char) { 'a' <= c <= 'z' }
  predicate IsDigit(c: char) { '0' <= c <= '9' }

  /** Lower-case of one character, restricted to the ASCII letters. */
  function LowerChar(c: char): (r: char)
    ensures !IsAsciiUpper(r)
    ensures IsAsciiUpper(c) ==> IsAsciiLower(r)
    ensures !IsAsciiUpper(c) ==> r == c
  {
    if IsAsciiUpper(c) then (c as int + 32) as char else c
  }

  /** `String.prototype.toLowerCase` on the ASCII letters. */
  function ToLower(s: string): (r: string)
    ensures |r| == |s|
    ensures forall i :: 0 <= i < |s| ==> r[i] == LowerChar(s[i])
  {
    if |s| == 0 then "" else [LowerChar(s[0])] + ToLower(s[1..])
  }

  lemma ToLowerIdempotent(s: string)
    ensures ToLower(ToLower(s)) == ToLower(s)
  {
  }

  /**
   * The characters JavaScript's `\s` class (and `String.prototype.trim`)
   * treats as white space.
   */
  predicate IsJsWhitespace(c: char)
  {
    c == ' ' || c == '\t' || c == '\n' || c == '\r' || c == '\U{000B}' || c == '\U{000C}'
    || c == '\U{00A0}' || c == '\U{1680}' || ('\U{2000}' <= c <= '\U{200A}')
    || c == '\U{2028}' || c == '\U{2029}' || c == '\U{202F}' || c == '\U{205F}'
    || c == '\U{3000}' || c == '\U{FEFF}'
  }

  /** `hay.includes(needle)`. */
  predicate Contains(hay: string, needle: string)
  {
    exists i :: 0 <= i <= |hay| && StartsWith(hay[i..], needle)
  }

  /** `s.startsWith(p)`. */
  predicate StartsWith(s: string, p: string)
  {
    |p| <= |s| && s[..|p|] == p
  }

  /** Does `c` occur anywhere in `s`. */
  predicate HasChar(s: string, c: char)
  {
    exists i :: 0 <= i < |s| && s[i] == c
  }

  // ---------------------------------------------------------------------------
  // Numbers as text

  function DigitChar(d: nat): (c: char)
    requires d < 10
    ensures IsDigit(c)
  {
    ('0' as int + d) as char
  }

  /** Decimal notation of a natural number, as `String(n)` prints it. */
  function NatToString(n: nat): (s: string)
    ensures |s| >= 1
    ensures forall i :: 0 <= i < |s| ==> IsDigit(s[i])
    ensures |s| > 1 ==> s[0] != '0'
  {
    if n < 10 then [DigitChar(n)] else NatToString(n / 10) + [DigitChar(n % 10)]
  }

  /** Decimal notation of an integer, with a leading `-` when negative. */
  function IntToString(i: int): (s: string)
    ensures |s| >= 1
    ensures s[0] == '-' <==> i < 0
  {
    if i < 0 then "-" + NatToString(-i) else NatToString(i)
  }

  function DigitValue(c: char): (d: nat)
    requires IsDigit(c)
    ensures d < 10
  {
    c as int - '0' as int
  }

  /** Value of a string of decimal digits. */
  function DigitsValue(s: string): nat
    requires forall i :: 0 <= i < |s| ==> IsDigit(s[i])
  {
    if |s| == 0 then 0 else DigitsValue(s[..|s| - 1]) * 10 + DigitValue(s[|s| - 1])
  }

  /** Reading back what `NatToString` wrote gives the number again. */
  lemma {:induction false} NatToStringRoundTrip(n: nat)
    ensures DigitsValue(NatToString(n)) == n
  {
    if n >= 10 {
      var s := NatToString(n);
      NatToStringRoundTrip(n / 10);
      assert s[..|s| - 1] == NatToString(n / 10);
    }
  }

  /** Different numbers are printed differently. */
  lemma NatToStringInjective(m: nat, n: nat)
    requires NatToString(m) == NatToString(n)
    ensures m == n
  {
    NatToStringRoundTrip(m);
    NatToStringRoundTrip(n);
  }

  // ---------------------------------------------------------------------------
  // Sequences

  /** `Array.prototype.slice(0, end)`: a negative end counts from the back. */
  function SliceTo<T>(s: seq<T>, end: int): (r: seq<T>)
    ensures 0 <= end ==> |r| == if end < |s| then end else |s|
    ensures |r| <= |s| && r == s[..|r|]
    ensures end < 0 ==> |r| == if |s| + end < 0 then 0 else |s| + end
  {
    if end >= 0 then (if end < |s| then s[..end] else s)
    else if |s| + end < 0 then [] else s[..|s| + end]
  }

  /** `Array.prototype.filter`. */
  function Filter<T(!new)>(p: T -> bool, s: seq<T>): (r: seq<T>)
    ensures |r| <= |s|
    ensures forall x :: x in r <==> x in s && p(x)
  {
    if |s| == 0 then [] else (if p(s[0]) then [s[0]] else []) + Filter(p, s[1..])
  }

  /** `a.join(sep)`. */
  function Join(parts: seq<string>, sep: string): string
  {
    if |parts| == 0 then "" else if |parts| == 1 then parts[0] else parts[0] + sep + Join(parts[1..], sep)
  }

  /** `[x]` when the filter is set, else nothing. */
  function When<T>(set_: bool, x: T): seq<T>
  {
    if set_ then [x] else []
  }

  /** Every element satisfies `p`: `and(...)` over a list of conditions, true for none. */
  predicate All<T>(xs: seq<T>, p: T -> bool)
  {
    forall i :: 0 <= i < |xs| ==> p(xs[i])
  }

  /** Conditions pushed in two batches hold exactly when each batch holds. */
  lemma AllAppend<T>(a: seq<T>, b: seq<T>, p: T -> bool)
    ensures All(a + b, p) <==> All(a, p) && All(b, p)
  {
    if All(a + b, p) {
      forall i | 0 <= i < |a|
        ensures p(a[i])
      {
        assert (a + b)[i] == a[i];
      }
      forall i | 0 <= i < |b|
        ensures p(b[i])
      {
        assert (a + b)[|a| + i] == b[i];
      }
    }
    if All(a, p) && All(b, p) {
      forall i | 0 <= i < |a + b|
        ensures p((a + b)[i])
      {
        if i < |a| {
          assert (a + b)[i] == a[i];
        } else {
          assert (a + b)[i] == b[i - |a|];
        }
      }
    }
  }

  /** A condition pushed only when its filter is set constrains only then. */
  lemma AllWhen<T>(set_: bool, x: T, p: T -> bool)
    ensures All(When(set_, x), p) <==> (set_ ==> p(x))
  {
    if set_ {
      assert When(set_, x)[0] == x;
    }
  }

  /** Four batches of conditions hold exactly when each of them holds. */
  lemma AllFour<T>(c1: seq<T>, c2: seq<T>, c3: seq<T>, c4: seq<T>, p: T -> bool)
    ensures All(c1 + c2 + c3 + c4, p) <==> All(c1, p) && All(c2, p) && All(c3, p) && All(c4, p)
  {
    AllAppend(c1, c2, p);
    AllAppend(c1 + c2, c3, p);
    AllAppend(c1 + c2 + c3, c4, p);
  }

  /** `if (set) list.push(x)`, on a list held as a sequence. */
  method PushIf<T>(xs: seq<T>, set_: bool, x: T) returns (ys: seq<T>)
    ensures ys == xs + When(set_, x)
  {
    ys := xs;
    if set_ {
      ys := ys + [x];
    }
  }

  /** Four pushes one after another append their concatenation. */
  lemma AppendFour<T>(a: seq<T>, w1: seq<T>, w2: seq<T>, w3: seq<T>, w4: seq<T>)
    ensures a + w1 + w2 + w3 + w4 == a + (w1 + w2 + w3 + w4)
  {
  }

  lemma AppendAssoc<T>(a: seq<T>, b: seq<T>, c: seq<T>)
    ensures a + b + c == a + (b + c)
  {
  }
}
