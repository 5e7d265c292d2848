/** Sequences used as ordered, duplicate-free lists of file names. */
module Seqs {

  datatype Option<+T> = None | Some(value: T)

  function Elems<T>(s: seq<T>): set<T> {
    set x | x in s
  }

  ghost predicate NoDup<T>(s: seq<T>) {
    forall i, j :: 0 <= i < j < |s| ==> s[i] != s[j]
  }

  /** Append unless already present. */
  function AddIfAbsent<T(==)>(s: seq<T>, x: T): seq<T> {
    if x in s then s else s + [x]
  }

  /** The distinct elements of `s`, in the order of their first occurrences. */
  function Distinct<T(==)>(s: seq<T>): seq<T> {
    if s == [] then [] else AddIfAbsent(Distinct(s[..|s| - 1]), s[|s| - 1])
  }

  lemma {:induction false} DistinctElems<T>(s: seq<T>)
    ensures NoDup(Distinct(s))
    ensures forall x :: x in Distinct(s) <==> x in s
  {
    if s != [] {
      DistinctElems(s[..|s| - 1]);
      assert s == s[..|s| - 1] + [s[|s| - 1]];
    }
  }

  /** Append those of `xs` that are not present, one after the other. */
  function AddAll<T(==)>(s: seq<T>, xs: seq<T>): seq<T>
    decreases |xs|
  {
    if xs == [] then s else AddAll(AddIfAbsent(s, xs[0]), xs[1..])
  }

  lemma {:induction false} AddAllElems<T>(s: seq<T>, xs: seq<T>)
    ensures Elems(AddAll(s, xs)) == Elems(s) + Elems(xs)
    decreases |xs|
  {
    if xs != [] {
      AddAllElems(AddIfAbsent(s, xs[0]), xs[1..]);
      assert xs == [xs[0]] + xs[1..];
    }
  }

  lemma {:induction false} AddAllJoin<T>(s: seq<T>, xs: seq<T>, ys: seq<T>)
    ensures AddAll(s, xs + ys) == AddAll(AddAll(s, xs), ys)
    decreases |xs|
  {
    if xs == [] {
      assert xs + ys == ys;
    } else {
      assert (xs + ys)[1..] == xs[1..] + ys;
      AddAllJoin(AddIfAbsent(s, xs[0]), xs[1..], ys);
    }
  }

  /** What is all there already changes nothing. */
  lemma {:induction false} AddAllPresent<T>(s: seq<T>, xs: seq<T>)
    requires forall x :: x in xs ==> x in s
    ensures AddAll(s, xs) == s
    decreases |xs|
  {
    if xs != [] {
      AddAllPresent(s, xs[1..]);
    }
  }

  lemma {:induction false} AddAllIsDistinct<T>(xs: seq<T>)
    ensures AddAll([], xs) == Distinct(xs)
    decreases |xs|
  {
    if xs != [] {
      var init, last := xs[..|xs| - 1], xs[|xs| - 1];
      AddAllIsDistinct(init);
      AddAllJoin([], init, [last]);
      assert xs == init + [last];
      assert AddAll(AddAll([], init), [last]) == AddIfAbsent(AddAll([], init), last) by {
        assert [last][1..] == [];
      }
    }
  }

  lemma {:induction false} DistinctAt<T>(s: seq<T>, i: nat) returns (k: nat)
    requires i < |Distinct(s)|
    ensures k < |s| && s[k] == Distinct(s)[i]
  {
    var was := Distinct(s[..|s| - 1]);
    if i < |was| {
      k := DistinctAt(s[..|s| - 1], i);
    } else {
      k := |s| - 1;
    }
  }

  /** Distinct elements stand in the order of their first occurrences. */
  lemma {:induction false} DistinctInOrder<T>(s: seq<T>, i: nat, j: nat)
    requires i < j < |Distinct(s)|
    ensures exists k :: 0 <= k < |s| && s[k] == Distinct(s)[i] && Distinct(s)[j] !in s[..k + 1]
  {
    var init, last := s[..|s| - 1], s[|s| - 1];
    var was := Distinct(init);
    DistinctElems(init);
    if j < |was| {
      DistinctInOrder(init, i, j);
      var k :| 0 <= k < |init| && init[k] == was[i] && was[j] !in init[..k + 1];
      assert init[..k + 1] == s[..k + 1];
    } else {
      var k := DistinctAt(init, i);
      assert Distinct(s)[j] !in init && forall m :: 0 <= m <= k ==> s[m] in init;
    }
  }

  /** The elements of `s` that satisfy `keep`, in order. */
  function Filter<T>(s: seq<T>, keep: T -> bool): (r: seq<T>) {
    if s == [] then [] else
    Filter(s[..|s| - 1], keep) + if keep(s[|s| - 1]) then [s[|s| - 1]] else []
  }

  lemma {:induction false} FilterElems<T>(s: seq<T>, keep: T -> bool)
    ensures forall x :: x in Filter(s, keep) <==> x in s && keep(x)
  {
    if s != [] {
      FilterElems(s[..|s| - 1], keep);
      assert s == s[..|s| - 1] + [s[|s| - 1]];
    }
  }

  lemma {:induction false} FilterNoDup<T>(s: seq<T>, keep: T -> bool)
    requires NoDup(s)
    ensures NoDup(Filter(s, keep))
  {
    if s != [] {
      FilterNoDup(s[..|s| - 1], keep);
      FilterElems(s[..|s| - 1], keep);
    }
  }

  /** Two selections from one duplicate-free list are equal exactly when they select alike. */
  lemma {:induction false} FilterEqual<T>(s: seq<T>, keep: T -> bool, keep': T -> bool)
    requires NoDup(s)
    ensures Filter(s, keep) == Filter(s, keep') <==> forall x :: x in s ==> keep(x) == keep'(x)
  {
    FilterElems(s, keep);
    FilterElems(s, keep');
    if forall x :: x in s ==> keep(x) == keep'(x) {
      FilterAlike(s, keep, keep');
    } else {
      var x :| x in s && keep(x) != keep'(x);
      assert x in Filter(s, keep) <==> x !in Filter(s, keep');
    }
  }

  lemma {:induction false} FilterAlike<T>(s: seq<T>, keep: T -> bool, keep': T -> bool)
    requires forall x :: x in s ==> keep(x) == keep'(x)
    ensures Filter(s, keep) == Filter(s, keep')
  {
    if s != [] {
      FilterAlike(s[..|s| - 1], keep, keep');
    }
  }

  lemma NoDupJoin<T>(a: seq<T>, b: seq<T>)
    requires NoDup(a) && NoDup(b) && Elems(a) !! Elems(b)
    ensures NoDup(a + b)
  {
    assert forall i :: 0 <= i < |a| ==> a[i] in Elems(a);
    assert forall i :: 0 <= i < |b| ==> b[i] in Elems(b);
  }

  lemma PrefixSnoc<T>(s: seq<T>, i: nat)
    requires i < |s|
    ensures s[..i + 1] == s[..i] + [s[i]]
  {}

  lemma FilterSnoc<T>(s: seq<T>, i: nat, keep: T -> bool)
    requires i < |s|
    ensures Filter(s[..i + 1], keep) == Filter(s[..i], keep) + if keep(s[i]) then [s[i]] else []
  {
    assert s[..i + 1][..i] == s[..i];
  }

  lemma Associative<T>(a: seq<T>, b: seq<T>, c: seq<T>)
    ensures a + b + c == a + (b + c)
  {}
}
