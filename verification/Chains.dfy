/** The linked items behind a list of files, which grow at the end: what `FileList.items` stands for. */
module Chains {
  import opened Seqs

  class Item<F> {
    var next: Item?<F>
    const contents: F

    constructor (f: F)
      ensures next == null && contents == f
    {
      next, contents := null, f;
    }
  }

  class Chain<F(==)> {
    var first: Item?<F>
    var last: Item?<F>
    ghost var spine: seq<Item<F>>

    /** `first` leads through the spine, `last` ends it, and nothing follows. */
    ghost predicate Valid()
      reads this, spine
    {
      && first == ItemAt(0)
      && last == (if spine == [] then null else spine[|spine| - 1])
      && NoDup(spine)
      && forall i {:trigger spine[i].next} :: 0 <= i < |spine| ==> spine[i].next == ItemAt(i + 1)
    }

    ghost function ItemAt(i: nat): Item?<F>
      reads this
    {
      if i < |spine| then spine[i] else null
    }

    ghost function Contents(): (s: seq<F>)
      reads this, spine
      ensures |s| == |spine| && forall i {:trigger s[i]} :: 0 <= i < |s| ==> s[i] == spine[i].contents
    {
      seq(|spine|, i requires 0 <= i < |spine| reads this, spine => spine[i].contents)
    }

    constructor ()
      ensures Valid() && Contents() == [] && spine == []
    {
      first, last, spine := null, null, [];
    }

    /** No item is in both chains. */
    ghost predicate Apart(c: Chain<F>)
      reads this, c
    {
      c != this && forall i :: i in c.spine ==> i !in spine
    }

    /** `others`, chains that share no item with this one, stay as they are, and apart from it. */
    method Add(f: F, ghost others: set<Chain<F>>)
      requires Valid() && forall c :: c in others ==> c.Valid() && Apart(c)
      modifies this, last
      ensures Valid() && Contents() == old(Contents()) + [f]
      ensures fresh(last) && spine == old(spine) + [last]
      ensures forall c :: c in others ==> c.Valid() && c.Contents() == old(c.Contents()) && Apart(c)
    {
      assert last != null ==> last in spine;
      var i := new Item(f);
      if last != null {
        last.next := i;
      } else {
        first := i;
      }
      last := i;
      spine := spine + [i];
    }

    method AddIfAbsent(f: F, ghost others: set<Chain<F>>)
      requires Valid() && forall c :: c in others ==> c.Valid() && Apart(c)
      modifies this, last
      ensures Valid() && Contents() == Seqs.AddIfAbsent(old(Contents()), f)
      ensures forall c :: c in others ==> c.Valid() && c.Contents() == old(c.Contents()) && Apart(c)
    {
      ghost var n := 0;
      var p := first;
      while p != null
        invariant n <= |spine| && p == ItemAt(n)
        invariant f !in Contents()[..n]
        decreases |spine| - n
      {
        if p.contents == f {
          assert Contents()[n] == f;
          return;
        }
        n, p := n + 1, p.next;
      }
      Add(f, others);
    }

    /** From `first`, one `next` after the other passes every item in order and ends at `last`. */
    method Walk() returns (visited: seq<F>, end: Item?<F>)
      requires Valid()
      ensures visited == Contents() && end == last
    {
      visited, end := [], null;
      var p := first;
      while p != null
        invariant |visited| <= |spine| && p == ItemAt(|visited|)
        invariant visited == Contents()[..|visited|]
        invariant visited != [] ==> end == spine[|visited| - 1]
        invariant visited == [] ==> end == null
        decreases |spine| - |visited|
      {
        assert p.contents == Contents()[|visited|];
        visited, end, p := visited + [p.contents], p, p.next;
      }
    }
  }
}
