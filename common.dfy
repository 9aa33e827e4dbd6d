/** Small generic helpers shared by the dimension builders and the fact engine:
    optional values, results, and the filter / count / first-match / average
    operations that the source performs with pandas boolean masks. */
module Common {

  datatype Option<+T> = None | Some(value: T) {
    function GetOr(default: T): T {
      match this
      case Some(v) => v
      case None => default
    }
  }

  datatype Result<+T, +E> = Ok(value: T) | Err(error: E)

  /** The elements of `s` that satisfy `p`, in their original order
      (a pandas boolean-mask selection). */
  function Filter<T>(s: seq<T>, p: T -> bool): (r: seq<T>)
    ensures |r| <= |s|
    ensures forall i :: 0 <= i < |r| ==> r[i] in s && p(r[i])
    ensures forall i :: 0 <= i < |s| && p(s[i]) ==> s[i] in r
  {
    if s == [] then []
    else if p(s[0]) then [s[0]] + Filter(s[1..], p)
    else Filter(s[1..], p)
  }

  /** Number of elements of `s` that satisfy `p` (`len(df[mask])`). */
  function Count<T>(s: seq<T>, p: T -> bool): (n: nat)
    ensures n <= |s|
    ensures n == 0 <==> forall i :: 0 <= i < |s| ==> !p(s[i])
  {
    FilterEmpty(s, p);
    |Filter(s, p)|
  }

  lemma {:induction false} FilterEmpty<T>(s: seq<T>, p: T -> bool)
    ensures Filter(s, p) == [] <==> forall i :: 0 <= i < |s| ==> !p(s[i])
  {
    if s != [] {
      FilterEmpty(s[1..], p);
      if p(s[0]) {
        assert Filter(s, p)[0] == s[0];
      } else {
        forall i | 1 <= i < |s| ensures s[i] == s[1..][i - 1] { }
      }
    }
  }

  /** Everything is counted exactly when every element satisfies `p`. */
  lemma {:induction false} CountAll<T>(s: seq<T>, p: T -> bool)
    ensures Count(s, p) == |s| <==> forall i :: 0 <= i < |s| ==> p(s[i])
  {
    if s != [] {
      CountAll(s[1..], p);
      assert Count(s, p) == (if p(s[0]) then 1 else 0) + Count(s[1..], p);
      if p(s[0]) {
        forall i | 1 <= i < |s| ensures s[i] == s[1..][i - 1] { }
      }
    }
  }

  /** Counting two disjoint conditions never exceeds counting their union. */
  lemma {:induction false} CountDisjoint<T>(s: seq<T>, p: T -> bool, q: T -> bool)
    requires forall x :: !(p(x) && q(x))
    ensures Count(s, p) + Count(s, q) <= |s|
  {
    if s != [] {
      CountDisjoint(s[1..], p, q);
    }
  }

  /** Counting three pairwise disjoint conditions never exceeds the length. */
  lemma {:induction false} CountDisjoint3<T>(s: seq<T>, p: T -> bool, q: T -> bool, r: T -> bool)
    requires forall x :: !(p(x) && q(x)) && !(p(x) && r(x)) && !(q(x) && r(x))
    ensures Count(s, p) + Count(s, q) + Count(s, r) <= |s|
  {
    if s != [] {
      CountDisjoint3(s[1..], p, q, r);
    }
  }

  /** A selection has no more elements satisfying `q` than the whole. */
  lemma {:induction false} CountOfFilter<T>(s: seq<T>, p: T -> bool, q: T -> bool)
    ensures Count(Filter(s, p), q) <= Count(s, q)
  {
    if s != [] {
      CountOfFilter(s[1..], p, q);
      if p(s[0]) {
        assert Filter(s, p)[1..] == Filter(s[1..], p);
      }
    }
  }

  /** Counting a condition that implies another gives a smaller number. */
  lemma {:induction false} CountMonotone<T>(s: seq<T>, p: T -> bool, q: T -> bool)
    requires forall x :: p(x) ==> q(x)
    ensures Count(s, p) <= Count(s, q)
  {
    if s != [] {
      CountMonotone(s[1..], p, q);
    }
  }

  /** The first element of `s` satisfying `p` (`df[mask].iloc[0]`), if any. */
  function FirstWhere<T>(s: seq<T>, p: T -> bool): Option<T> {
    if s == [] then None
    else if p(s[0]) then Some(s[0])
    else FirstWhere(s[1..], p)
  }

  /** `FirstWhere` finds nothing exactly when nothing matches, and otherwise
      the element at the first matching index. */
  lemma {:induction false} FirstWhereFound<T>(s: seq<T>, p: T -> bool)
    ensures FirstWhere(s, p).None? <==> forall i :: 0 <= i < |s| ==> !p(s[i])
    ensures FirstWhere(s, p).Some? ==>
              exists i :: 0 <= i < |s| && s[i] == FirstWhere(s, p).value && p(s[i]) &&
                          forall j :: 0 <= j < i ==> !p(s[j])
  {
    if s != [] && !p(s[0]) {
      var tail := s[1..];
      FirstWhereFound(tail, p);
      forall i | 1 <= i < |s| ensures s[i] == tail[i - 1] { }
      var r := FirstWhere(tail, p);
      if r.Some? {
        var i :| 0 <= i < |tail| && tail[i] == r.value && p(tail[i]) &&
                 forall j :: 0 <= j < i ==> !p(tail[j]);
        assert s[i + 1] == r.value;
        forall j | 0 <= j < i + 1 ensures !p(s[j]) {
          if j > 0 { assert s[j] == tail[j - 1]; }
        }
      }
    }
  }

  /** The last element of `s` satisfying `p`: the value a Python dict built
      with `dict(zip(keys, values))` keeps for a repeated key. */
  function LastWhere<T>(s: seq<T>, p: T -> bool): Option<T> {
    if s == [] then None
    else if p(s[|s| - 1]) then Some(s[|s| - 1])
    else LastWhere(s[..|s| - 1], p)
  }

  /** `LastWhere` finds nothing exactly when nothing matches, and otherwise
      the element at the last matching index. */
  lemma {:induction false} LastWhereFound<T>(s: seq<T>, p: T -> bool)
    ensures LastWhere(s, p).None? <==> forall i :: 0 <= i < |s| ==> !p(s[i])
    ensures LastWhere(s, p).Some? ==>
              exists i :: 0 <= i < |s| && s[i] == LastWhere(s, p).value && p(s[i]) &&
                          forall j :: i < j < |s| ==> !p(s[j])
  {
    if s != [] && !p(s[|s| - 1]) {
      var init := s[..|s| - 1];
      LastWhereFound(init, p);
      var r := LastWhere(init, p);
      if r.Some? {
        var i :| 0 <= i < |init| && init[i] == r.value && p(init[i]) &&
                 forall j :: i < j < |init| ==> !p(init[j]);
        forall j | i < j < |s| ensures !p(s[j]) {
          if j < |s| - 1 { assert s[j] == init[j]; }
        }
      }
    }
  }

  /** `dict(zip(keys, values))`, or a loop assigning `d[key] = value` row by
      row: a repeated key keeps the value of its last row. */
  function ZipDict<T, K, V>(s: seq<T>, key: T -> K, val: T -> V): map<K, V> {
    if s == [] then map[]
    else ZipDict(s[..|s| - 1], key, val)[key(s[|s| - 1]) := val(s[|s| - 1])]
  }

  /** `d.get(k)`: `None` for a missing key. */
  function Get<K, V>(m: map<K, V>, k: K): Option<V> {
    if k in m then Some(m[k]) else None
  }

  /** A key is in the dict exactly when some row has it, and its value comes
      from the last such row. */
  lemma {:induction false} ZipDictFacts<T, K, V>(s: seq<T>, key: T -> K, val: T -> V, k: K)
    ensures k in ZipDict(s, key, val) <==> exists i :: 0 <= i < |s| && key(s[i]) == k
    ensures k in ZipDict(s, key, val) ==>
              exists i :: 0 <= i < |s| && key(s[i]) == k && val(s[i]) == ZipDict(s, key, val)[k] &&
                          forall j :: i < j < |s| ==> key(s[j]) != k
  {
    if s != [] {
      var init := s[..|s| - 1];
      ZipDictFacts(init, key, val, k);
      if key(s[|s| - 1]) != k {
        if k in ZipDict(init, key, val) {
          var i :| 0 <= i < |init| && key(init[i]) == k && val(init[i]) == ZipDict(init, key, val)[k] &&
                   forall j :: i < j < |init| ==> key(init[j]) != k;
          assert s[i] == init[i];
          forall j | i < j < |s| ensures key(s[j]) != k {
            if j < |init| { assert s[j] == init[j]; }
          }
        }
        forall i | 0 <= i < |s| && key(s[i]) == k ensures k in ZipDict(init, key, val) {
          assert i < |init| && s[i] == init[i];
        }
      }
    }
  }

  /** Whether `s[i]` is the first element of `s` with its key: the rows a loop
      keeps when it skips every key already recorded in a `processed` set. */
  predicate FirstOccurrence<T, K(==)>(s: seq<T>, key: T -> K, i: int) {
    0 <= i < |s| && forall j :: 0 <= j < i ==> key(s[j]) != key(s[i])
  }

  /** Every key that occurs has a first occurrence, at or before any occurrence. */
  lemma {:induction false} FirstOccurrenceExists<T, K>(s: seq<T>, key: T -> K, i: int)
    requires 0 <= i < |s|
    ensures exists j :: 0 <= j <= i && FirstOccurrence(s, key, j) && key(s[j]) == key(s[i])
    decreases i
  {
    if !FirstOccurrence(s, key, i) {
      var j :| 0 <= j < i && key(s[j]) == key(s[i]);
      FirstOccurrenceExists(s, key, j);
    }
  }

  /** The keys of the first `i` elements: the `processed` set of a loop that
      records every key it meets. */
  function KeysBefore<T, K>(s: seq<T>, key: T -> K, i: nat): set<K>
    requires i <= |s|
  {
    set j | 0 <= j < i :: key(s[j])
  }

  /** A key is new exactly at its first occurrence, and recording it gives the
      keys of one more element. */
  lemma ProcessedStep<T, K>(s: seq<T>, key: T -> K, i: nat)
    requires i < |s|
    ensures key(s[i]) in KeysBefore(s, key, i) <==> !FirstOccurrence(s, key, i)
    ensures KeysBefore(s, key, i) + {key(s[i])} == KeysBefore(s, key, i + 1)
  {
  }

  /** The values present in a column of optional values (`dropna`). */
  function Present<T>(s: seq<Option<T>>): (r: seq<T>)
    ensures |r| <= |s|
    ensures forall i :: 0 <= i < |r| ==> Some(r[i]) in s
    ensures forall i :: 0 <= i < |s| && s[i].Some? ==> s[i].value in r
  {
    if s == [] then []
    else match s[0]
      case Some(v) => [v] + Present(s[1..])
      case None => Present(s[1..])
  }

  function Sum(xs: seq<real>): real {
    if xs == [] then 0.0 else xs[0] + Sum(xs[1..])
  }

  /** Arithmetic mean of a non-empty column (`Series.mean()`). */
  function Mean(xs: seq<real>): (m: real)
    requires xs != []
    ensures m * (|xs| as real) == Sum(xs)
  {
    Sum(xs) / (|xs| as real)
  }

  lemma {:induction false} SumBounds(xs: seq<real>, lo: real, hi: real)
    requires forall i :: 0 <= i < |xs| ==> lo <= xs[i] <= hi
    ensures lo * (|xs| as real) <= Sum(xs) <= hi * (|xs| as real)
  {
    if xs != [] {
      SumBounds(xs[1..], lo, hi);
    }
  }

  /** A mean lies between any bounds all of its elements respect. */
  lemma MeanBounds(xs: seq<real>, lo: real, hi: real)
    requires xs != []
    requires forall i :: 0 <= i < |xs| ==> lo <= xs[i] <= hi
    ensures lo <= Mean(xs) <= hi
  {
    SumBounds(xs, lo, hi);
    var n := |xs| as real;
    DivideMonotone(lo * n, Sum(xs), n);
    DivideMonotone(Sum(xs), hi * n, n);
    assert (lo * n) / n == lo && (hi * n) / n == hi;
  }

  /** Dividing by the same positive amount keeps the order. */
  lemma DivideMonotone(a: real, b: real, d: real)
    requires a <= b && d > 0.0
    ensures a / d <= b / d
  {
  }

  /** A sum, and a mean, of values none of which is negative is not negative. */
  lemma {:induction false} NonNegativeSum(xs: seq<real>)
    requires forall i :: 0 <= i < |xs| ==> xs[i] >= 0.0
    ensures Sum(xs) >= 0.0
    ensures xs != [] ==> Mean(xs) >= 0.0
  {
    if xs != [] {
      NonNegativeSum(xs[1..]);
      var n := |xs| as real;
      assert Mean(xs) * n == Sum(xs);
    }
  }

  /** A sum, and a mean, of positive values is positive. */
  lemma PositiveSum(xs: seq<real>)
    requires xs != []
    requires forall i :: 0 <= i < |xs| ==> 0.0 < xs[i]
    ensures Sum(xs) > 0.0
    ensures Mean(xs) > 0.0
  {
    NonNegativeSum(xs[1..]);
    var n := |xs| as real;
    assert Mean(xs) * n == Sum(xs);
  }

  /** Number of occurrences of `x` in `s`. */
  function Occurrences<T(==)>(s: seq<T>, x: T): nat {
    multiset(s)[x]
  }

  function MaxOccurrencesAmong<T(==)>(s: seq<T>, cands: seq<T>): (n: nat)
    ensures forall i :: 0 <= i < |cands| ==> Occurrences(s, cands[i]) <= n
    ensures cands == [] ==> n == 0
    ensures cands != [] ==> exists i :: 0 <= i < |cands| && Occurrences(s, cands[i]) == n
  {
    if cands == [] then 0
    else
      var rest := MaxOccurrencesAmong(s, cands[1..]);
      var here := Occurrences(s, cands[0]);
      if here >= rest then here else rest
  }

  /** The count of the most frequent value of a column: the first entry of
      `value_counts()`, which sorts by descending count. Which value attains it
      when several tie does not matter for the count. */
  function MaxMultiplicity<T(==)>(s: seq<T>): (n: nat)
    ensures n <= |s|
    ensures n == 0 <==> s == []
    ensures forall i :: 0 <= i < |s| ==> Occurrences(s, s[i]) <= n
    ensures s != [] ==> exists i :: 0 <= i < |s| && Occurrences(s, s[i]) == n
  {
    var n := MaxOccurrencesAmong(s, s);
    MaxMultiplicityFacts(s, n);
    n
  }

  lemma MaxMultiplicityFacts<T>(s: seq<T>, n: nat)
    requires forall i :: 0 <= i < |s| ==> Occurrences(s, s[i]) <= n
    requires s == [] ==> n == 0
    requires s != [] ==> exists i :: 0 <= i < |s| && Occurrences(s, s[i]) == n
    ensures n <= |s|
    ensures n == 0 <==> s == []
  {
    if s != [] {
      assert Occurrences(s, s[0]) >= 1;
      var i :| 0 <= i < |s| && Occurrences(s, s[i]) == n;
      assert |multiset(s)| == |s|;
      MultiplicityAtMostSize(multiset(s), s[i]);
    }
  }

  lemma MultiplicityAtMostSize<T>(m: multiset<T>, x: T)
    ensures m[x] <= |m|
  {
    var rest := m[x := 0];
    assert m == rest + multiset{}[x := m[x]];
  }

  /** Number of distinct values of a column (`nunique()`). */
  function Distinct<T(==)>(s: seq<T>): (n: nat)
    ensures n <= |s|
    ensures n == 0 <==> s == []
  {
    CardinalityOfElements(s);
    var elements := set x | x in s;
    assert s != [] ==> s[0] in elements && |elements - {s[0]}| < |elements|;
    |elements|
  }

  lemma {:induction false} CardinalityOfElements<T>(s: seq<T>)
    ensures |set x | x in s| <= |s|
  {
    if s != [] {
      CardinalityOfElements(s[1..]);
      assert (set x | x in s) == (set x | x in s[1..]) + {s[0]};
    }
  }

  /** A column of a table: `f` applied to every row, in order. */
  function Project<T, U>(s: seq<T>, f: T -> U): (r: seq<U>)
    ensures |r| == |s|
    ensures forall i :: 0 <= i < |s| ==> r[i] == f(s[i])
  {
    if s == [] then [] else [f(s[0])] + Project(s[1..], f)
  }

  /** The values `f` gives for the first `n` items, in order, skipping the
      items it gives nothing for: a loop that appends a row per item that
      yields one. */
  function Collect<A, B>(xs: seq<A>, f: A -> Option<B>, n: nat): seq<B>
    requires n <= |xs|
  {
    if n == 0 then []
    else
      match f(xs[n - 1])
      case Some(y) => Collect(xs, f, n - 1) + [y]
      case None => Collect(xs, f, n - 1)
  }

  /** The loop that computes `Collect` over all items. */
  method CollectLoop<A, B>(xs: seq<A>, f: A -> Option<B>) returns (ys: seq<B>)
    ensures ys == Collect(xs, f, |xs|)
  {
    ys := [];
    for i := 0 to |xs|
      invariant ys == Collect(xs, f, i)
    {
      var y := f(xs[i]);
      if y.Some? {
        ys := ys + [y.value];
      }
    }
  }

  /** At most one value is collected per item, and exactly one when every
      item yields one. */
  lemma {:induction false} CollectLength<A, B>(xs: seq<A>, f: A -> Option<B>, n: nat)
    requires n <= |xs|
    ensures |Collect(xs, f, n)| <= n
    ensures (forall i :: 0 <= i < n ==> f(xs[i]).Some?) ==> |Collect(xs, f, n)| == n
    ensures (forall i :: 0 <= i < n ==> f(xs[i]).None?) <==> Collect(xs, f, n) == []
  {
    if n > 0 {
      CollectLength(xs, f, n - 1);
    }
  }

  /** Appending an item to a selection appends it to the filtered rows
      exactly when it satisfies the condition. */
  lemma {:induction false} FilterSnoc<T>(s: seq<T>, x: T, p: T -> bool)
    ensures Filter(s + [x], p) == Filter(s, p) + (if p(x) then [x] else [])
  {
    if s != [] {
      assert (s + [x])[1..] == s[1..] + [x];
      FilterSnoc(s[1..], x, p);
    }
  }

  /** One value is collected per item that yields one: the number of
      collected values is the number of such items among the first `n`. */
  lemma {:induction false} CollectCount<A, B>(xs: seq<A>, f: A -> Option<B>, n: nat, p: A -> bool)
    requires n <= |xs|
    requires forall i :: 0 <= i < |xs| ==> (p(xs[i]) <==> f(xs[i]).Some?)
    ensures |Collect(xs, f, n)| == Count(xs[..n], p)
  {
    if n > 0 {
      CollectCount(xs, f, n - 1, p);
      assert xs[..n] == xs[..n - 1] + [xs[n - 1]];
      FilterSnoc(xs[..n - 1], xs[n - 1], p);
    }
  }

  /** A value is collected exactly when one of the first `n` items yields
      it. */
  lemma {:induction false} CollectMembers<A, B>(xs: seq<A>, f: A -> Option<B>, n: nat, y: B)
    requires n <= |xs|
    ensures y in Collect(xs, f, n) <==> exists i :: 0 <= i < n && f(xs[i]) == Some(y)
  {
    if n > 0 {
      CollectMembers(xs, f, n - 1, y);
      var prev := Collect(xs, f, n - 1);
      if f(xs[n - 1]) == Some(y) {
        assert Collect(xs, f, n) == prev + [y];
      } else if f(xs[n - 1]).Some? {
        assert Collect(xs, f, n) == prev + [f(xs[n - 1]).value];
      } else {
        assert Collect(xs, f, n) == prev;
      }
    }
  }

  /** When each yielded value carries the key of its item and no two items
      share a key, an item's key is among the collected values' keys
      exactly when the item yields a value. */
  lemma CollectKeyed<A, B>(xs: seq<A>, f: A -> Option<B>, n: nat, key: B -> real, at: A -> real, j: nat)
    requires j < n <= |xs|
    requires forall a, b :: 0 <= a < b < |xs| ==> at(xs[a]) < at(xs[b])
    requires forall i :: 0 <= i < |xs| && f(xs[i]).Some? ==> key(f(xs[i]).value) == at(xs[i])
    ensures (exists i :: 0 <= i < |Collect(xs, f, n)| && key(Collect(xs, f, n)[i]) == at(xs[j])) <==> f(xs[j]).Some?
  {
    var ys := Collect(xs, f, n);
    if f(xs[j]).Some? {
      CollectMembers(xs, f, n, f(xs[j]).value);
      var i :| 0 <= i < |ys| && ys[i] == f(xs[j]).value;
      assert key(ys[i]) == at(xs[j]);
    }
    if exists i :: 0 <= i < |ys| && key(ys[i]) == at(xs[j]) {
      var i :| 0 <= i < |ys| && key(ys[i]) == at(xs[j]);
      CollectMembers(xs, f, n, ys[i]);
      var k :| 0 <= k < n && f(xs[k]) == Some(ys[i]);
      assert at(xs[k]) == at(xs[j]);
      assert !(k < j) && !(j < k);
    }
  }

  /** A property every yielded value has holds of every collected value. */
  lemma {:induction false} CollectAll<A, B>(xs: seq<A>, f: A -> Option<B>, n: nat, p: B -> bool)
    requires n <= |xs|
    requires forall i :: 0 <= i < |xs| && f(xs[i]).Some? ==> p(f(xs[i]).value)
    ensures forall i :: 0 <= i < |Collect(xs, f, n)| ==> p(Collect(xs, f, n)[i])
  {
    if n > 0 {
      CollectAll(xs, f, n - 1, p);
    }
  }

  /** When each yielded value carries the key of its item and the items'
      keys strictly increase, the collected values' keys strictly increase
      too, and none exceeds the key of the last item read. */
  lemma {:induction false} CollectOrdered<A, B>(xs: seq<A>, f: A -> Option<B>, n: nat, key: B -> real, at: A -> real)
    requires n <= |xs|
    requires forall a, b :: 0 <= a < b < |xs| ==> at(xs[a]) < at(xs[b])
    requires forall i :: 0 <= i < |xs| && f(xs[i]).Some? ==> key(f(xs[i]).value) == at(xs[i])
    ensures forall a, b :: 0 <= a < b < |Collect(xs, f, n)| ==>
              key(Collect(xs, f, n)[a]) < key(Collect(xs, f, n)[b])
    ensures n > 0 ==> forall i :: 0 <= i < |Collect(xs, f, n)| ==> key(Collect(xs, f, n)[i]) <= at(xs[n - 1])
  {
    if n > 1 {
      CollectOrdered(xs, f, n - 1, key, at);
      assert at(xs[n - 2]) < at(xs[n - 1]);
    }
  }
}
