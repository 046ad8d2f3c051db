// Generic sequence helpers shared by the server actions and the client
// components: the JavaScript array operations `find`, `findIndex`,
// `filter` and the drag-and-drop `arrayMove`.
module Common {

  datatype Option<+T> = None | Some(value: T)

  /** `Array.prototype.findIndex`: the first position whose element satisfies `p`. */
  function FindIndex<T>(s: seq<T>, p: T -> bool): (r: Option<nat>)
    ensures r.Some? ==> r.value < |s| && p(s[r.value])
    ensures r.Some? ==> forall j :: 0 <= j < r.value ==> !p(s[j])
    ensures r.None? <==> forall j :: 0 <= j < |s| ==> !p(s[j])
  {
    if |s| == 0 then None
    else if p(s[0]) then Some(0)
    else match FindIndex(s[1..], p)
      case None => None
      case Some(k) => Some(k + 1)
  }

  /** The index `FindIndex` returns is the first that satisfies `p`, so naming that index determines the result. */
  lemma FindIndexIsFirst<T>(s: seq<T>, p: T -> bool, k: nat)
    requires k < |s| && p(s[k]) && forall j :: 0 <= j < k ==> !p(s[j])
    ensures FindIndex(s, p) == Some(k)
  {
  }

  /** `Array.prototype.find`, and the first row of a database query with a `where` clause. */
  function First<T>(s: seq<T>, p: T -> bool): (r: Option<T>)
    ensures r.Some? ==> r.value in s && p(r.value)
    ensures r.None? ==> forall x :: x in s ==> !p(x)
  {
    if |s| == 0 then None
    else if p(s[0]) then Some(s[0])
    else First(s[1..], p)
  }

  /** `find` and `findIndex` agree: the element found is the one at the index found. */
  lemma {:induction false} FirstAtFindIndex<T>(s: seq<T>, p: T -> bool)
    ensures First(s, p).Some? <==> FindIndex(s, p).Some?
    ensures FindIndex(s, p).Some? ==> First(s, p).value == s[FindIndex(s, p).value]
  {
    if |s| > 0 && !p(s[0]) {
      FirstAtFindIndex(s[1..], p);
    }
  }

  /** When at most one element satisfies `p`, `First` returns exactly that element. */
  lemma FirstOfUnique<T>(s: seq<T>, p: T -> bool, x: T)
    requires x in s && p(x)
    requires forall a, b :: a in s && b in s && p(a) && p(b) ==> a == b
    ensures First(s, p) == Some(x)
  {
  }

  /** `Array.prototype.filter`: the elements satisfying `keep`, in their original order. */
  function Filter<T>(s: seq<T>, keep: T -> bool): (r: seq<T>)
    ensures |r| <= |s|
    ensures forall x :: x in r ==> x in s && keep(x)
    ensures forall x :: x in s && keep(x) ==> x in r
  {
    if |s| == 0 then []
    else if keep(s[|s| - 1]) then Filter(s[..|s| - 1], keep) + [s[|s| - 1]]
    else Filter(s[..|s| - 1], keep)
  }

  /** Filtering distributes over concatenation, so the relative order of kept elements is unchanged. */
  lemma {:induction false} FilterAppend<T>(a: seq<T>, b: seq<T>, keep: T -> bool)
    ensures Filter(a + b, keep) == Filter(a, keep) + Filter(b, keep)
    decreases |b|
  {
    if |b| == 0 {
      assert a + b == a;
    } else {
      var b' := b[..|b| - 1];
      assert (a + b)[..|a + b| - 1] == a + b';
      assert (a + b)[|a + b| - 1] == b[|b| - 1];
      FilterAppend(a, b', keep);
    }
  }

  /** Filtering with a predicate every element satisfies changes nothing. */
  lemma {:induction false} FilterKeepsAll<T>(s: seq<T>, keep: T -> bool)
    requires forall j :: 0 <= j < |s| ==> keep(s[j])
    ensures Filter(s, keep) == s
    decreases |s|
  {
    if |s| > 0 {
      assert s[..|s| - 1] + [s[|s| - 1]] == s;
      FilterKeepsAll(s[..|s| - 1], keep);
    }
  }

  /** Filtering out exactly one position removes that element and keeps the rest in order. */
  lemma {:induction false} FilterDropsOne<T>(s: seq<T>, keep: T -> bool, i: nat)
    requires i < |s| && !keep(s[i])
    requires forall j :: 0 <= j < |s| && j != i ==> keep(s[j])
    ensures Filter(s, keep) == s[..i] + s[i + 1..]
    decreases |s|
  {
    var init, last := s[..|s| - 1], s[|s| - 1];
    if i == |s| - 1 {
      FilterKeepsAll(init, keep);
      assert s[i + 1..] == [];
    } else {
      assert keep(last);
      FilterDropsOne(init, keep, i);
      DropOneSlices(s, i);
    }
  }

  /** The slice identities the inductive step of `FilterDropsOne` needs. */
  lemma DropOneSlices<T>(s: seq<T>, i: nat)
    requires i < |s| - 1
    ensures s[..|s| - 1][..i] + s[..|s| - 1][i + 1..] + [s[|s| - 1]] == s[..i] + s[i + 1..]
  {
    assert s[..|s| - 1][..i] == s[..i];
    assert s[..|s| - 1][i + 1..] + [s[|s| - 1]] == s[i + 1..];
  }

  /** `[...list, x]`: the list with `x` appended last. */
  function Append<T>(s: seq<T>, x: T): (r: seq<T>)
    ensures |r| == |s| + 1 && r[..|s|] == s && r[|s|] == x
  {
    s + [x]
  }

  /** `list.filter((x) => x.id !== k)` over a key column: the elements whose key is not `k`, in order. */
  function WithoutKey<T, K(==)>(s: seq<T>, key: T -> K, k: K): (r: seq<T>)
    ensures forall x :: x in r ==> x in s && key(x) != k
    ensures forall x :: x in s && key(x) != k ==> x in r
  {
    Filter(s, (x: T) => key(x) != k)
  }

  /** Removing a key that no element carries leaves the list as it was. */
  lemma WithoutAbsentKey<T, K>(s: seq<T>, key: T -> K, k: K)
    requires forall x :: x in s ==> key(x) != k
    ensures WithoutKey(s, key, k) == s
  {
    FilterKeepsAll(s, (x: T) => key(x) != k);
  }

  /** Removing a key that only the element at `i` carries removes exactly that element, keeping the others in order. */
  lemma WithoutUniqueKey<T, K>(s: seq<T>, key: T -> K, i: nat)
    requires i < |s|
    requires forall j :: 0 <= j < |s| && j != i ==> key(s[j]) != key(s[i])
    ensures WithoutKey(s, key, key(s[i])) == s[..i] + s[i + 1..]
  {
    FilterDropsOne(s, (x: T) => key(x) != key(s[i]), i);
  }

  /** The number of elements satisfying `p`. */
  function Count<T>(s: seq<T>, p: T -> bool): (n: nat)
    ensures n <= |s|
    ensures n == 0 <==> forall x :: x in s ==> !p(x)
  {
    if |s| == 0 then 0
    else Count(s[..|s| - 1], p) + (if p(s[|s| - 1]) then 1 else 0)
  }

  /** `Filter` keeps exactly the `Count` elements that satisfy the predicate. */
  lemma {:induction false} FilterLength<T>(s: seq<T>, keep: T -> bool)
    ensures |Filter(s, keep)| == Count(s, keep)
    decreases |s|
  {
    if |s| > 0 {
      FilterLength(s[..|s| - 1], keep);
    }
  }

  /** The `arrayMove` of the drag-and-drop kit: take the element at `from` out and put it back at `to`. */
  function Move<T>(s: seq<T>, from: nat, to: nat): (r: seq<T>)
    requires from < |s| && to < |s|
    ensures |r| == |s|
    ensures r[to] == s[from]
    ensures r[..to] + r[to + 1..] == s[..from] + s[from + 1..]
  {
    var rest := s[..from] + s[from + 1..];
    var moved := rest[..to] + [s[from]] + rest[to..];
    assert moved[..to] == rest[..to];
    assert moved[to + 1..] == rest[to..];
    assert rest[..to] + rest[to..] == rest;
    moved
  }

  /** Moving an element reorders the sequence without adding or losing anything. */
  lemma MovePermutes<T>(s: seq<T>, from: nat, to: nat)
    requires from < |s| && to < |s|
    ensures multiset(Move(s, from, to)) == multiset(s)
  {
    var r := Move(s, from, to);
    var rest := s[..from] + s[from + 1..];
    assert s == s[..from] + [s[from]] + s[from + 1..];
    assert r == r[..to] + [r[to]] + r[to + 1..];
    calc {
      multiset(r);
      multiset(r[..to]) + multiset{s[from]} + multiset(r[to + 1..]);
      multiset(r[..to] + r[to + 1..]) + multiset{s[from]};
      multiset(rest) + multiset{s[from]};
      multiset(s[..from]) + multiset(s[from + 1..]) + multiset{s[from]};
      multiset(s);
    }
  }

  /** No element occurs twice. */
  predicate NoDuplicates<T(==)>(s: seq<T>)
  {
    forall i, j :: 0 <= i < j < |s| ==> s[i] != s[j]
  }
}
