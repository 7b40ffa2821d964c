/** Small shared vocabulary: optional values and dictionaries that remember insertion order. */
module Prelude {

  datatype Option<+T> = None | Some(value: T)

  ghost predicate Distinct<T(!new)>(s: seq<T>) {
    forall i, j :: 0 <= i < j < |s| ==> s[i] != s[j]
  }

  /** `s` without `x`, the rest in order. */
  function Omit<T(==, !new)>(s: seq<T>, x: T): (r: seq<T>)
    ensures forall y :: y in r <==> y in s && y != x
  {
    if s == [] then []
    else
      var init := s[..|s| - 1];
      var last := s[|s| - 1];
      assert s == init + [last];
      if last == x then Omit(init, x) else Omit(init, x) + [last]
  }

  lemma {:induction false} OmitLength<T(!new)>(s: seq<T>, x: T)
    requires Distinct(s)
    ensures Distinct(Omit(s, x)) && |Omit(s, x)| == |s| - if x in s then 1 else 0
  {
    if s != [] {
      var init := s[..|s| - 1];
      var last := s[|s| - 1];
      assert s == init + [last];
      OmitLength(init, x);
      assert last !in init;
    }
  }

  lemma {:induction false} DistinctSize<T(!new)>(s: seq<T>, t: set<T>)
    requires Distinct(s) && forall x :: x in s <==> x in t
    ensures |s| == |t|
  {
    if s == [] {
      assert t == {};
    } else {
      var init := s[..|s| - 1];
      var last := s[|s| - 1];
      assert s == init + [last] && last !in init;
      DistinctSize(init, t - {last});
    }
  }

  lemma {:induction false} OmitFirst<T(!new)>(s: seq<T>)
    requires s != [] && Distinct(s)
    ensures Omit(s, s[0]) == s[1..]
    decreases |s|
  {
    var init := s[..|s| - 1];
    if init != [] {
      OmitFirst(init);
      assert init[1..] + [s[|s| - 1]] == s[1..];
    }
  }

  // Products of reals are left to these two lemmas.

  lemma ScaleKeepsOrder(a: real, b: real, c: real)
    requires a < b && c > 0.0
    ensures a * c < b * c
  {
    assert b * c - a * c == (b - a) * c;
  }

  lemma QuotientTimes(a: real, c: real)
    requires c > 0.0
    ensures (a / c) * c == a
  {
  }

  /** A part of a whole is a fraction, and all of it exactly if nothing is missing. */
  lemma PartOfWhole(m: nat, n: nat)
    requires m <= n && n > 0
    ensures 0.0 <= m as real / n as real <= 1.0 && (m as real / n as real == 1.0 <==> m == n)
  {
    var q, d := m as real / n as real, n as real;
    QuotientTimes(m as real, d);
    if q < 0.0 {
      ScaleKeepsOrder(q, 0.0, d);
    } else if q < 1.0 {
      ScaleKeepsOrder(q, 1.0, d);
    } else if q > 1.0 {
      ScaleKeepsOrder(1.0, q, d);
    }
  }

  /** A dictionary that remembers the order in which its keys were first inserted. */
  datatype Dict<K(!new, ==), V> = Dict(order: seq<K>, items: map<K, V>) {
    ghost predicate Valid() {
      Distinct(order) && forall k :: k in order <==> k in items
    }

    /** Assignment: an old key keeps its place, a new one goes last. */
    function Put(k: K, v: V): (d: Dict<K, V>)
      ensures Valid() ==> d.Valid()
    {
      Dict(if k in items then order else order + [k], items[k := v])
    }

    function SetDefault(k: K, v: V): (d: Dict<K, V>)
      ensures Valid() ==> d.Valid()
    {
      if k in items then this else Dict(order + [k], items[k := v])
    }

    function Remove(k: K): (d: Dict<K, V>)
      ensures Valid() ==> d.Valid()
    {
      assert Valid() ==> Distinct(Omit(order, k)) by {
        if Valid() {
          OmitLength(order, k);
        }
      }
      Dict(Omit(order, k), items - {k})
    }
  }
}
