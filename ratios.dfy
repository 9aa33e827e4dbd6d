/** The guarded divisions every KPI goes through (`safe_divide`,
    `safe_percentage`), the share of a count in a total that most ratio KPIs
    reduce to, and the clamps and integer conversions of the fact table. */
module Ratios {
  import opened Common

  /** `safe_divide`: the quotient, or `default` when the denominator is zero. */
  function SafeDivide(numerator: real, denominator: real, default: real): (r: real)
    ensures denominator == 0.0 ==> r == default
    ensures denominator != 0.0 ==> r * denominator == numerator
  {
    if denominator == 0.0 then default else numerator / denominator
  }

  /** `safe_percentage`: the quotient times 100, or `default` when the
      denominator is zero. */
  function SafePercentage(numerator: real, denominator: real, default: real): (r: real)
    ensures denominator == 0.0 ==> r == default
    ensures denominator != 0.0 ==> r * denominator == numerator * 100.0
  {
    if denominator == 0.0 then default else (numerator / denominator) * 100.0
  }

  /** The percentage of `count` items among `total`, 0 for an empty total:
      `safe_percentage(count, total)` on two row counts. */
  function Share(count: nat, total: nat): real {
    SafePercentage(count as real, total as real, 0.0)
  }

  /** A share of a sub-count lies in [0, 100]; it is 0 exactly when nothing
      is counted and 100 exactly when everything is. */
  lemma ShareBounds(count: nat, total: nat)
    requires count <= total
    ensures 0.0 <= Share(count, total) <= 100.0
    ensures Share(count, total) == 0.0 <==> count == 0
    ensures Share(count, total) == 100.0 <==> 0 < total && count == total
  {
    if total > 0 {
      var r := Share(count, total);
      var t := total as real;
      assert r == (count as real) / t * 100.0;
      assert (count as real) / t <= 1.0;
    }
  }

  /** A share is never negative, whatever the count. */
  lemma ShareNonNegative(count: nat, total: nat)
    ensures Share(count, total) >= 0.0
  {
    if total > 0 {
      assert (count as real) / (total as real) >= 0.0;
    }
  }

  /** The percentage of the rows of `s` that satisfy `q`:
      `safe_percentage(len(df[q]), len(df))`. */
  function ShareWhere<T>(s: seq<T>, q: T -> bool): real {
    Share(Count(s, q), |s|)
  }

  /** A row share lies in [0, 100]; it is 0 exactly when no row satisfies
      the condition and 100 exactly when there are rows and all do. */
  lemma ShareWhereFacts<T>(s: seq<T>, q: T -> bool)
    ensures 0.0 <= ShareWhere(s, q) <= 100.0
    ensures ShareWhere(s, q) == 0.0 <==> forall i :: 0 <= i < |s| ==> !q(s[i])
    ensures ShareWhere(s, q) == 100.0 <==> s != [] && forall i :: 0 <= i < |s| ==> q(s[i])
  {
    ShareBounds(Count(s, q), |s|);
    CountAll(s, q);
  }

  /** Shares of two counts in the same total add up to the share of their
      sum. */
  lemma ShareAdd(a: nat, b: nat, total: nat)
    ensures Share(a, total) + Share(b, total) == Share(a + b, total)
  {
    if total > 0 {
      var t := total as real;
      assert Share(a, total) == (a as real) / t * 100.0;
      assert Share(b, total) == (b as real) / t * 100.0;
      assert Share(a + b, total) == ((a + b) as real) / t * 100.0;
      assert (a as real) / t + (b as real) / t == ((a + b) as real) / t;
    }
  }

  /** Shares of three counts that fit together in a total add up to at
      most 100. */
  lemma ShareSum3(a: nat, b: nat, c: nat, total: nat)
    requires a + b + c <= total
    ensures Share(a, total) + Share(b, total) + Share(c, total) <= 100.0
  {
    ShareAdd(a, b, total);
    ShareAdd(a + b, c, total);
    ShareBounds(a + b + c, total);
  }

  /** The share of the most common known value among all values, missing
      ones included: `value_counts().iloc[0]` over the column's length, and 0
      when no value is known. */
  function ModeShare<T(==)>(values: seq<Option<T>>): real {
    var known := Present(values);
    if known != [] then Share(MaxMultiplicity(known), |values|) else 0.0
  }

  /** The mode share lies in [0, 100], and is 0 exactly when no value is
      known. */
  lemma ModeShareFacts<T>(values: seq<Option<T>>)
    ensures 0.0 <= ModeShare(values) <= 100.0
    ensures ModeShare(values) == 0.0 <==> forall i :: 0 <= i < |values| ==> values[i].None?
  {
    var known := Present(values);
    if known != [] {
      ShareBounds(MaxMultiplicity(known), |values|);
      assert Some(known[0]) in values;
    }
    if !forall i :: 0 <= i < |values| ==> values[i].None? {
      var i :| 0 <= i < |values| && values[i].Some?;
      assert values[i].value in known;
    }
  }

  /** A column holding one known value throughout has a mode share of 100. */
  lemma UniformModeShare<T>(values: seq<Option<T>>, t: T)
    requires values != []
    requires forall i :: 0 <= i < |values| ==> values[i] == Some(t)
    ensures ModeShare(values) == 100.0
  {
    var known := Present(values);
    UniformPresent(values, t);
    ConstantMultiplicity(|values|, t);
    assert Occurrences(known, known[0]) == |values|;
    ShareBounds(MaxMultiplicity(known), |values|);
  }

  lemma {:induction false} UniformPresent<T>(values: seq<Option<T>>, t: T)
    requires forall i :: 0 <= i < |values| ==> values[i] == Some(t)
    ensures Present(values) == seq(|values|, _ => t)
  {
    if values != [] {
      UniformPresent(values[1..], t);
      assert seq(|values|, _ => t) == [t] + seq(|values| - 1, _ => t);
    }
  }

  lemma {:induction false} ConstantMultiplicity<T>(n: nat, t: T)
    ensures multiset(seq(n, _ => t))[t] == n
  {
    if n > 0 {
      ConstantMultiplicity(n - 1, t);
      assert seq(n, _ => t) == seq(n - 1, _ => t) + [t];
    }
  }

  /** `max(lo, min(x, hi))`, and `Series.clip(lo, hi)` on one value. */
  function Clamp(x: real, lo: real, hi: real): (r: real)
    requires lo <= hi
    ensures lo <= r <= hi
    ensures lo <= x <= hi ==> r == x
    ensures x < lo ==> r == lo
    ensures x > hi ==> r == hi
  {
    if x < lo then lo else if x > hi then hi else x
  }

  /** `astype('int64')` on a float: truncation toward zero. */
  function Truncate(x: real): (n: int)
    ensures x >= 0.0 ==> n as real <= x < n as real + 1.0
    ensures x < 0.0 ==> n as real - 1.0 < x <= n as real
  {
    if x >= 0.0 then x.Floor else -((-x).Floor)
  }

  /** Truncating an integral value gives the value back. */
  lemma TruncateIntegral(n: int)
    ensures Truncate(n as real) == n
  {
  }

  /** Python's `a // b` on non-negative counts, 0 for no divisor. */
  function FloorDivide(a: nat, b: nat): (q: nat)
    ensures b > 0 ==> q * b <= a < (q + 1) * b
    ensures b == 0 ==> q == 0
  {
    if b == 0 then 0 else a / b
  }
}
