/**
 * The zod checks the input schemas are built from, as predicates on the
 * parsed fields. An optional field that is absent is `None`; a number is a
 * finite `real` (NaN and the infinities are not modelled), and `.int()` asks
 * that it has no fractional part.
 */
module Zod {
  import opened Common

  /** `z.number().int()`. */
  predicate IsInt(x: real)
  {
    x.Floor as real == x
  }

  /** `z.string().min(lo).max(hi)`. */
  predicate LenIn(s: string, lo: nat, hi: nat)
  {
    lo <= |s| <= hi
  }

  /** A required string field with length bounds. */
  predicate ReqStr(s: Option<string>, lo: nat, hi: nat)
  {
    s.Some? && LenIn(s.value, lo, hi)
  }

  /** A required string field with `.min(1)` and no upper bound. */
  predicate ReqId(s: Option<string>)
  {
    s.Some? && |s.value| >= 1
  }

  /** `z.string().max(hi).optional()`. */
  predicate OptStr(s: Option<string>, hi: nat)
  {
    s.None? || |s.value| <= hi
  }

  /** `z.number().int().min(lo)` on a present value. */
  predicate IntAtLeast(x: real, lo: int)
  {
    IsInt(x) && x >= lo as real
  }

  /** `z.number().int().min(lo).max(hi)` on a present value. */
  predicate IntIn(x: real, lo: int, hi: int)
  {
    IsInt(x) && lo as real <= x <= hi as real
  }

  /** `z.number().int().min(lo).optional()` (and `.default(d)`: an absent value passes). */
  predicate OptIntAtLeast(x: Option<real>, lo: int)
  {
    x.None? || IntAtLeast(x.value, lo)
  }

  /** `z.number().int().min(lo).max(hi).optional()`. */
  predicate OptIntIn(x: Option<real>, lo: int, hi: int)
  {
    x.None? || IntIn(x.value, lo, hi)
  }

  /** `z.number().min(lo).optional()`. */
  predicate OptNumAtLeast(x: Option<real>, lo: real)
  {
    x.None? || x.value >= lo
  }

  /** `z.number().positive().optional()`. */
  predicate OptPositive(x: Option<real>)
  {
    x.None? || x.value > 0.0
  }

  /** `z.enum(values)` on a required field. */
  predicate ReqIn(s: Option<string>, values: seq<string>)
  {
    s.Some? && s.value in values
  }

  /** `z.enum(values).optional()`. */
  predicate OptIn(s: Option<string>, values: seq<string>)
  {
    s.None? || s.value in values
  }

  /** `z.array(z.string().min(1)).min(1)`: a non-empty list of non-empty ids. */
  predicate IdList(ids: Option<seq<string>>)
  {
    ids.Some? && |ids.value| >= 1 && forall i :: 0 <= i < |ids.value| ==> |ids.value[i]| >= 1
  }

  /** `z.array(z.enum(values)).optional()`. */
  predicate OptAllIn(xs: Option<seq<string>>, values: seq<string>)
  {
    xs.None? || forall i :: 0 <= i < |xs.value| ==> xs.value[i] in values
  }

  /** Every entry at most `hi` characters: `z.array(z.string().max(hi))`. */
  predicate AllMaxLen(xs: seq<string>, hi: nat)
  {
    forall i :: 0 <= i < |xs| ==> |xs[i]| <= hi
  }

  /**
   * Whether the parsed object has the declared key `name`. zod keeps a key the
   * input object has even when its value is `undefined`, and leaves out one
   * the input lacks; `keys` are the keys of the input object.
   */
  predicate KeyKept<T>(value: Option<T>, name: string, keys: set<string>)
  {
    value.Some? || name in keys
  }

  /** The key `name`, when the input has it, holds a value rather than `undefined`. */
  predicate NotUndefined<T>(value: Option<T>, name: string, keys: set<string>)
  {
    name in keys ==> value.Some?
  }

  /** The refinement `if (min && max) return min <= max`: skipped unless both are truthy. */
  predicate RangeOk(lo: Option<real>, hi: Option<real>)
  {
    TruthyNum(lo) && TruthyNum(hi) ==> lo.value <= hi.value
  }

  // ---------------------------------------------------------------------------
  // Slugs: /^[a-z0-9-]+$/

  predicate IsSlugChar(c: char)
  {
    IsAsciiLower(c) || IsDigit(c) || c == '-'
  }

  /** The slug pattern: one or more lower-case letters, digits or hyphens. */
  predicate IsSlug(s: string)
  {
    |s| >= 1 && forall i :: 0 <= i < |s| ==> IsSlugChar(s[i])
  }

  /** A slug field: `.min(1).max(255).regex(/^[a-z0-9-]+$/)`. */
  predicate ReqSlug(s: Option<string>)
  {
    ReqStr(s, 1, 255) && IsSlug(s.value)
  }

  /** A slug field is 1 to 255 characters, none of them an upper-case letter, and lower-casing leaves it as it is. */
  lemma SlugIsLowerCase(s: string)
    requires ReqSlug(Some(s))
    ensures 1 <= |s| <= 255
    ensures forall i :: 0 <= i < |s| ==> !IsAsciiUpper(s[i]) && !IsJsWhitespace(s[i])
    ensures ToLower(s) == s
  {
    assert forall i :: 0 <= i < |s| ==> LowerChar(s[i]) == s[i];
  }

  /** Upper-case letters, spaces and the empty string are not slugs. */
  lemma SlugExamples()
    ensures IsSlug("chocolate-cake-2")
    ensures !IsSlug("Chocolate") && !IsSlug("choc cake") && !IsSlug("")
  {
    assert !IsSlugChar("Chocolate"[0]);
    assert !IsSlugChar("choc cake"[4]);
  }

  // ---------------------------------------------------------------------------
  // Decimal prices: /^\d+(\.\d{1,2})?$/

  predicate AllDigits(s: string)
  {
    forall i :: 0 <= i < |s| ==> IsDigit(s[i])
  }

  /** The length of the run of digits `s` starts with. */
  function DigitRun(s: string): (n: nat)
    ensures n <= |s|
    ensures AllDigits(s[..n])
    ensures n < |s| ==> !IsDigit(s[n])
  {
    if |s| == 0 || !IsDigit(s[0]) then 0
    else
      var m := DigitRun(s[1..]);
      assert s[..1 + m] == [s[0]] + s[1..][..m];
      1 + m
  }

  /**
   * The price pattern, matched the way the regular expression does: the
   * leading digits (at least one), then either the end of the text or a `.`
   * followed by one or two digits and the end.
   */
  predicate IsPrice(s: string)
  {
    var n := DigitRun(s);
    n > 0 && (n == |s| || (s[n] == '.' && 2 <= |s| - n <= 3 && AllDigits(s[n + 1..])))
  }

  /** The pattern read as a grammar: a whole part of digits, and an optional fraction of one or two digits. */
  predicate PriceParts(whole: string, fraction: string)
  {
    |whole| >= 1 && AllDigits(whole)
    && (fraction == [] || (2 <= |fraction| <= 3 && fraction[0] == '.' && AllDigits(fraction[1..])))
  }

  /** A digit run ends where a non-digit starts. */
  lemma {:induction false} DigitRunOfParts(whole: string, rest: string)
    requires AllDigits(whole)
    requires rest == [] || !IsDigit(rest[0])
    ensures DigitRun(whole + rest) == |whole|
  {
    if |whole| > 0 {
      assert (whole + rest)[1..] == whole[1..] + rest;
      DigitRunOfParts(whole[1..], rest);
    }
  }

  /** The price check accepts exactly the texts the grammar derives. */
  lemma PriceGrammar(s: string)
    ensures IsPrice(s) <==> exists whole, fraction :: s == whole + fraction && PriceParts(whole, fraction)
  {
    var n := DigitRun(s);
    if IsPrice(s) {
      assert s == s[..n] + s[n..];
      assert s[n..] == [] || s[n..][1..] == s[n + 1..];
      assert PriceParts(s[..n], s[n..]);
    }
    if exists whole, fraction :: s == whole + fraction && PriceParts(whole, fraction) {
      var whole, fraction :| s == whole + fraction && PriceParts(whole, fraction);
      DigitRunOfParts(whole, fraction);
      assert fraction == s[n..];
      assert fraction == [] || fraction[1..] == s[n + 1..];
    }
  }

  /** A trailing dot, a missing whole part and a third decimal are all rejected. */
  lemma PriceExamples()
    ensures IsPrice("12") && IsPrice("12.5") && IsPrice("12.50") && IsPrice("0.99")
    ensures !IsPrice("12.") && !IsPrice(".5") && !IsPrice("1.234") && !IsPrice("-1") && !IsPrice("")
  {
    assert DigitRun("12.") == 2;
    assert DigitRun("1.234") == 1;
    assert DigitRun("12.5") == 2;
    assert DigitRun("12.50") == 2;
    assert DigitRun("0.99") == 1;
  }

  /** A required price field. */
  predicate ReqPrice(s: Option<string>)
  {
    s.Some? && IsPrice(s.value)
  }

  /** An optional price field. */
  predicate OptPrice(s: Option<string>)
  {
    s.None? || IsPrice(s.value)
  }

  // ---------------------------------------------------------------------------
  // Colours: /^#[0-9A-Fa-f]{6}$/

  predicate IsHexDigit(c: char)
  {
    IsDigit(c) || ('a' <= c <= 'f') || ('A' <= c <= 'F')
  }

  predicate IsHexColor(s: string)
  {
    |s| == 7 && s[0] == '#' && forall i :: 1 <= i < 7 ==> IsHexDigit(s[i])
  }

  /** A colour is `#` and six hex digits in either case; the short form and a missing `#` are rejected. */
  lemma HexColorExamples()
    ensures IsHexColor("#FFaa00") && IsHexColor("#123456")
    ensures !IsHexColor("#fff") && !IsHexColor("FFAA001") && !IsHexColor("#GGGGGG")
  {
    assert !IsHexDigit("#GGGGGG"[1]);
  }
}
