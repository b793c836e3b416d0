/**
 * The older variant keeps timestamps as strings in the fixed format
 * `YYYY-MM-DDTHH:MM:SSZ` and widens a user's edit range with string
 * `min`/`max`. With every field zero-padded to a fixed width, string order
 * is the order of the field tuple (year, month, day, hour, minute, second).
 * For valid calendar fields (month 1-12, hour 0-23 and so on) that is the
 * order of the instants, so the integer timestamps of the fetch model
 * describe both variants; the correspondence with instants is not part of
 * this model, and `Fits` only bounds each field's width.
 */
module Timestamps {

  datatype DateTime = DateTime(year: int, month: int, day: int, hour: int, minute: int, second: int)

  const Widths: seq<nat> := [4, 2, 2, 2, 2, 2]
  /** The character after each field. */
  const Seps: string := "--T::Z"

  function Fields(t: DateTime): seq<int>
  {
    [t.year, t.month, t.day, t.hour, t.minute, t.second]
  }

  function Pow10(w: nat): nat
  {
    if w == 0 then 1 else 10 * Pow10(w - 1)
  }

  /** Every field fits its width, as for any date the format can print. */
  predicate Fits(vs: seq<int>)
  {
    |vs| == 6 && forall i :: 0 <= i < 6 ==> 0 <= vs[i] < Pow10(Widths[i])
  }

  function DigitChar(d: int): char
    requires 0 <= d < 10
  {
    ('0' as int + d) as char
  }

  /** `n` in decimal, zero-padded to `w` digits. */
  function Digits(n: nat, w: nat): (r: string)
    ensures |r| == w
  {
    if w == 0 then [] else Digits(n / 10, w - 1) + [DigitChar(n % 10)]
  }

  function Render(vs: seq<int>, i: nat): string
    requires Fits(vs) && i <= 6
    decreases 6 - i
  {
    if i == 6 then [] else (Digits(vs[i], Widths[i]) + [Seps[i]]) + Render(vs, i + 1)
  }

  /** The timestamp format `%Y-%m-%dT%H:%M:%SZ`. */
  function Format(t: DateTime): string
    requires Fits(Fields(t))
  {
    Render(Fields(t), 0)
  }

  /** String comparison: by code point, a proper prefix first. */
  predicate StrLess(a: string, b: string)
  {
    if a == [] then b != []
    else if b == [] then false
    else if a[0] != b[0] then a[0] < b[0]
    else StrLess(a[1..], b[1..])
  }

  /** Lexicographic order on equally long tuples. */
  predicate LexLess(x: seq<int>, y: seq<int>)
    requires |x| == |y|
  {
    x != [] && (x[0] < y[0] || (x[0] == y[0] && LexLess(x[1..], y[1..])))
  }

  /** Comparing two strings that start with equally long parts. */
  lemma {:induction false} StrLessConcat(a1: string, a2: string, b1: string, b2: string)
    requires |a1| == |b1|
    ensures StrLess(a1 + a2, b1 + b2) <==> StrLess(a1, b1) || (a1 == b1 && StrLess(a2, b2))
    ensures a1 + a2 == b1 + b2 <==> a1 == b1 && a2 == b2
  {
    if a1 == [] {
      assert a1 + a2 == a2 && b1 + b2 == b2;
    } else {
      assert (a1 + a2)[1..] == a1[1..] + a2 && (b1 + b2)[1..] == b1[1..] + b2;
      StrLessConcat(a1[1..], a2, b1[1..], b2);
      if a1 + a2 == b1 + b2 {
        assert (a1 + a2)[..|a1|] == a1 && (b1 + b2)[..|b1|] == b1;
      }
      assert a1 == [a1[0]] + a1[1..] && b1 == [b1[0]] + b1[1..];
    }
  }

  /** Zero-padded numbers of one width compare as strings as they do as numbers. */
  lemma {:induction false} DigitsOrder(a: nat, b: nat, w: nat)
    requires a < Pow10(w) && b < Pow10(w)
    ensures StrLess(Digits(a, w), Digits(b, w)) <==> a < b
    ensures Digits(a, w) == Digits(b, w) <==> a == b
  {
    if w > 0 {
      DigitsOrder(a / 10, b / 10, w - 1);
      StrLessConcat(Digits(a / 10, w - 1), [DigitChar(a % 10)], Digits(b / 10, w - 1), [DigitChar(b % 10)]);
      assert a == 10 * (a / 10) + a % 10 && b == 10 * (b / 10) + b % 10;
      assert StrLess([DigitChar(a % 10)], [DigitChar(b % 10)]) <==> a % 10 < b % 10 by {
        assert [DigitChar(a % 10)][1..] == [];
      }
    }
  }

  lemma {:induction false} RenderOrder(a: seq<int>, b: seq<int>, i: nat)
    requires Fits(a) && Fits(b) && i <= 6
    ensures StrLess(Render(a, i), Render(b, i)) <==> LexLess(a[i..], b[i..])
    ensures Render(a, i) == Render(b, i) <==> a[i..] == b[i..]
    decreases 6 - i
  {
    if i < 6 {
      RenderOrder(a, b, i + 1);
      var da, db := Digits(a[i], Widths[i]), Digits(b[i], Widths[i]);
      DigitsOrder(a[i], b[i], Widths[i]);
      StrLessConcat(da, [Seps[i]], db, [Seps[i]]);
      StrLessConcat(da + [Seps[i]], Render(a, i + 1), db + [Seps[i]], Render(b, i + 1));
      assert a[i..][1..] == a[i + 1..] && b[i..][1..] == b[i + 1..];
      assert a[i..] == [a[i]] + a[i + 1..] && b[i..] == [b[i]] + b[i + 1..];
    } else {
      assert a[i..] == [] && b[i..] == [];
    }
  }

  /** Formatted timestamps compare as strings exactly as their field tuples compare. */
  lemma FormatOrder(s: DateTime, t: DateTime)
    requires Fits(Fields(s)) && Fits(Fields(t))
    ensures StrLess(Format(s), Format(t)) <==> LexLess(Fields(s), Fields(t))
    ensures Format(s) == Format(t) <==> s == t
  {
    RenderOrder(Fields(s), Fields(t), 0);
    assert Fields(s)[0..] == Fields(s) && Fields(t)[0..] == Fields(t);
  }

  /** `min(a, b)` on strings: `b` only when it is strictly smaller. */
  function StrMin(a: string, b: string): string
  {
    if StrLess(b, a) then b else a
  }

  /** `max(a, b)` on strings: `b` only when it is strictly larger. */
  function StrMax(a: string, b: string): string
  {
    if StrLess(a, b) then b else a
  }

  /**
   * Widening a string range is widening the instant range: the string
   * minimum (maximum) of two formatted timestamps formats the earlier
   * (later) of the two.
   */
  lemma WidenAgrees(s: DateTime, t: DateTime)
    requires Fits(Fields(s)) && Fits(Fields(t))
    ensures StrMin(Format(s), Format(t)) == Format(if LexLess(Fields(t), Fields(s)) then t else s)
    ensures StrMax(Format(s), Format(t)) == Format(if LexLess(Fields(s), Fields(t)) then t else s)
  {
    FormatOrder(s, t);
    FormatOrder(t, s);
  }
}
