// Day 13: packet ordering.
// A packet is an integer or a list of packets. `partial_cmp` compares integers numerically,
// lists lexicographically, and wraps a lone integer into a one-element list when it meets a
// list. Structural equality (`==`, derived) is a different relation from the ordering.

module Day13 {
  import opened Basics

  datatype Data = Array(items: seq<Data>) | Integer(n: nat)

  datatype Ordering = Less | Equal | Greater

  /** `Ordering::reverse`. */
  function Flip(o: Ordering): Ordering
  {
    match o
    case Less => Greater
    case Equal => Equal
    case Greater => Less
  }

  /** Sizes that shrink on every recursive comparison, even across the wrapping of an
      integer into a list. */
  function Size(d: Data): (s: nat)
    ensures s >= 1
    decreases d
  {
    match d
    case Integer(_) => 1
    case Array(xs) => 1 + ListSize(xs)
  }

  function ListSize(xs: seq<Data>): nat
    decreases xs
  {
    if xs == [] then 0 else Size(xs[0]) + ListSize(xs[1..])
  }

  function CompareNat(a: nat, b: nat): (o: Ordering)
    ensures o == Less <==> a < b
    ensures o == Equal <==> a == b
  {
    if a < b then Less else if a == b then Equal else Greater
  }

  /** `PartialOrd::partial_cmp` for `Data`. Every branch yields `Some`, so the model returns
      the ordering itself; `PartialCmp` below wraps it. */
  function Compare(a: Data, b: Data): Ordering
    decreases Size(a) + Size(b), 0
  {
    match (a, b)
    case (Integer(n1), Integer(n2)) => CompareNat(n1, n2)
    case (Array(a1), Array(a2)) => CompareLists(a1, a2)
    case (Array(a1), Integer(n2)) =>
      assert [Integer(n2)][1..] == [] && ListSize([Integer(n2)]) == 1;
      CompareLists(a1, [Integer(n2)])
    case (Integer(n1), Array(a2)) =>
      assert [Integer(n1)][1..] == [] && ListSize([Integer(n1)]) == 1;
      CompareLists([Integer(n1)], a2)
  }

  /** `PartialOrd::partial_cmp` for `Vec<Data>`: the first unequal pair of elements decides,
      and otherwise the shorter list is smaller. */
  function CompareLists(xs: seq<Data>, ys: seq<Data>): Ordering
    decreases ListSize(xs) + ListSize(ys), 1
  {
    if xs == [] then (if ys == [] then Equal else Less)
    else if ys == [] then Greater
    else
      var head := Compare(xs[0], ys[0]);
      if head == Equal then CompareLists(xs[1..], ys[1..]) else head
  }

  function PartialCmp(a: Data, b: Data): Option<Ordering>
  {
    Some(Compare(a, b))
  }

  /** `a < b` as `PartialOrd::lt` decides it. */
  predicate Lt(a: Data, b: Data)
  {
    PartialCmp(a, b) == Some(Less)
  }

  /** The comparison is total: `partial_cmp` never answers `None`. */
  lemma PartialCmpTotal(a: Data, b: Data)
    ensures PartialCmp(a, b).Some?
    ensures Lt(a, b) <==> Compare(a, b) == Less
  {
  }

  /** The list a value is compared as: its items, or an integer wrapped alone. */
  function Items(d: Data): (xs: seq<Data>)
    ensures ListSize(xs) <= Size(d)
    ensures d.Array? ==> ListSize(xs) < Size(d)
  {
    match d
    case Array(xs) => xs
    case Integer(n) => [Integer(n)]
  }

  /** Every comparison is a comparison of lists, once integers are wrapped. */
  lemma CompareAsLists(a: Data, b: Data)
    ensures Compare(a, b) == CompareLists(Items(a), Items(b))
  {
    if a.Integer? && b.Integer? {
      assert CompareLists(Items(a), Items(b)) == (
        if Compare(a, b) == Equal then CompareLists([], []) else Compare(a, b));
    }
  }

  // ----- Reflexivity and antisymmetry -----

  /** Every packet compares `Equal` to itself. */
  lemma {:induction false} CompareSelf(a: Data)
    ensures Compare(a, a) == Equal
    decreases Size(a), 0
  {
    match a
    case Integer(_) =>
    case Array(xs) => CompareListsSelf(xs);
  }

  lemma {:induction false} CompareListsSelf(xs: seq<Data>)
    ensures CompareLists(xs, xs) == Equal
    decreases ListSize(xs), 1
  {
    if xs != [] {
      CompareSelf(xs[0]);
      CompareListsSelf(xs[1..]);
    }
  }

  /** Swapping the operands reverses the answer. */
  lemma {:induction false} CompareFlip(a: Data, b: Data)
    ensures Compare(b, a) == Flip(Compare(a, b))
    decreases Size(a) + Size(b), 0
  {
    if a.Integer? && b.Integer? {
    } else {
      CompareAsLists(a, b);
      CompareAsLists(b, a);
      CompareListsFlip(Items(a), Items(b));
    }
  }

  lemma {:induction false} CompareListsFlip(xs: seq<Data>, ys: seq<Data>)
    ensures CompareLists(ys, xs) == Flip(CompareLists(xs, ys))
    decreases ListSize(xs) + ListSize(ys), 1
  {
    if xs != [] && ys != [] {
      CompareFlip(xs[0], ys[0]);
      CompareListsFlip(xs[1..], ys[1..]);
    }
  }

  // ----- Transitivity -----

  /** What two steps that do not go down add up to: `Equal` only if both are. */
  function Chain(o1: Ordering, o2: Ordering): (o: Ordering)
    requires o1 != Greater && o2 != Greater
    ensures o != Greater
    ensures o == Equal <==> o1 == Equal && o2 == Equal
  {
    if o1 == Equal && o2 == Equal then Equal else Less
  }

  /** The ordering is transitive, strictly so when either step is strict. */
  lemma {:induction false} CompareTransitive(a: Data, b: Data, c: Data)
    requires Compare(a, b) != Greater && Compare(b, c) != Greater
    ensures Compare(a, c) == Chain(Compare(a, b), Compare(b, c))
    decreases Size(a) + Size(b) + Size(c), 0
  {
    if a.Integer? && b.Integer? && c.Integer? {
    } else {
      CompareAsLists(a, b);
      CompareAsLists(b, c);
      CompareAsLists(a, c);
      CompareListsTransitive(Items(a), Items(b), Items(c));
    }
  }

  lemma {:induction false} CompareListsTransitive(xs: seq<Data>, ys: seq<Data>, zs: seq<Data>)
    requires CompareLists(xs, ys) != Greater && CompareLists(ys, zs) != Greater
    ensures CompareLists(xs, zs) == Chain(CompareLists(xs, ys), CompareLists(ys, zs))
    decreases ListSize(xs) + ListSize(ys) + ListSize(zs), 1
  {
    if xs != [] {
      assert ys != [] && zs != [];
      CompareTransitive(xs[0], ys[0], zs[0]);
      if Compare(xs[0], ys[0]) == Equal && Compare(ys[0], zs[0]) == Equal {
        CompareListsTransitive(xs[1..], ys[1..], zs[1..]);
      }
    }
  }

  /** `<` is a strict order: irreflexive, asymmetric and transitive. */
  lemma LtStrictOrder(a: Data, b: Data, c: Data)
    ensures !Lt(a, a)
    ensures Lt(a, b) ==> !Lt(b, a)
    ensures Lt(a, b) && Lt(b, c) ==> Lt(a, c)
  {
    CompareSelf(a);
    CompareFlip(a, b);
    if Lt(a, b) && Lt(b, c) {
      CompareTransitive(a, b, c);
    }
  }

  // ----- Ordering versus structural equality -----

  /** An integer and the list holding just it compare `Equal`, yet are different values. */
  lemma WrappedIntegerEqual(n: nat)
    ensures Compare(Integer(n), Array([Integer(n)])) == Equal
    ensures Integer(n) != Array([Integer(n)])
  {
    assert CompareLists([Integer(n)], [Integer(n)]) == CompareLists([], []);
  }

  /** Structurally equal packets compare `Equal`; the converse fails (above). */
  lemma EqualValuesCompareEqual(a: Data, b: Data)
    requires a == b
    ensures Compare(a, b) == Equal
  {
    CompareSelf(a);
  }

  // ----- The puzzle's worked cases -----

  function Ints(ns: seq<nat>): (xs: seq<Data>)
    ensures |xs| == |ns|
    ensures forall i :: 0 <= i < |ns| ==> xs[i] == Integer(ns[i])
  {
    seq(|ns|, i requires 0 <= i < |ns| => Integer(ns[i]))
  }

  /** A list that runs out first is smaller, whatever it holds. */
  lemma {:induction false} ProperPrefixSmaller(xs: seq<Data>, ys: seq<Data>)
    requires |xs| < |ys| && xs == ys[..|xs|]
    ensures CompareLists(xs, ys) == Less
    decreases |xs|
  {
    if xs != [] {
      CompareSelf(xs[0]);
      assert xs[1..] == ys[1..][..|xs| - 1];
      ProperPrefixSmaller(xs[1..], ys[1..]);
    }
  }

  /** `[7,7,7,7] < [7,7,7]` is false. */
  lemma LongerNotSmaller()
    ensures !Lt(Array(Ints([7, 7, 7, 7])), Array(Ints([7, 7, 7])))
  {
    var short, long := Ints([7, 7, 7]), Ints([7, 7, 7, 7]);
    assert short == long[..3];
    ProperPrefixSmaller(short, long);
    CompareListsFlip(short, long);
  }

  /** `[[[]]] < [[]]` is false. */
  lemma DeeperEmptyNotSmaller()
    ensures !Lt(Array([Array([Array([])])]), Array([Array([])]))
  {
    var inner := Array([Array([])]);
    assert Compare(inner, Array([])) == CompareLists([Array([])], []);
    assert CompareLists([inner], [Array([])]) == Greater;
  }

  /** `[[1],[2,3,4]] < [[1],4]`: the lone 4 is wrapped and beats 2. */
  lemma WrappedIntegerDecides()
    ensures Lt(Array([Array(Ints([1])), Array(Ints([2, 3, 4]))]), Array([Array(Ints([1])), Integer(4)]))
  {
    var one := Array(Ints([1]));
    CompareSelf(one);
    var left, right := Array(Ints([2, 3, 4])), Integer(4);
    assert Compare(left, right) == CompareLists(Ints([2, 3, 4]), [Integer(4)]);
    assert Compare(Integer(2), Integer(4)) == Less;
    assert CompareLists(Ints([2, 3, 4]), [Integer(4)]) == Less;
    var l, r := [one, left], [one, right];
    assert CompareLists(l, r) == CompareLists(l[1..], r[1..]);
  }

  // ----- Part 1 on parsed pairs -----

  /** The sum of the 1-based indices of the pairs in the right order. */
  function InOrderSum(pairs: seq<(Data, Data)>): nat
  {
    if pairs == [] then 0
    else
      var last := |pairs| - 1;
      InOrderSum(pairs[..last]) + (if Lt(pairs[last].0, pairs[last].1) then last + 1 else 0)
  }

  function Swapped(pairs: seq<(Data, Data)>): (r: seq<(Data, Data)>)
    ensures |r| == |pairs|
    ensures forall i :: 0 <= i < |pairs| ==> r[i] == (pairs[i].1, pairs[i].0)
  {
    seq(|pairs|, i requires 0 <= i < |pairs| => (pairs[i].1, pairs[i].0))
  }

  /** 1 + 2 + ... + n. */
  function Triangle(n: nat): nat
  {
    if n == 0 then 0 else Triangle(n - 1) + n
  }

  /** When no pair compares `Equal`, each index is counted in exactly one of a list of pairs
      and its swapped list. */
  lemma {:induction false} InOrderSumSwapped(pairs: seq<(Data, Data)>)
    requires forall i :: 0 <= i < |pairs| ==> Compare(pairs[i].0, pairs[i].1) != Equal
    ensures InOrderSum(pairs) + InOrderSum(Swapped(pairs)) == Triangle(|pairs|)
  {
    if pairs != [] {
      var last := |pairs| - 1;
      assert Swapped(pairs)[..last] == Swapped(pairs[..last]);
      InOrderSumSwapped(pairs[..last]);
      CompareFlip(pairs[last].0, pairs[last].1);
    }
  }
}
