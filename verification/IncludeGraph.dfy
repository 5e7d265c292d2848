/** Files, include edges, and what it means for one file to reach another. */
module IncludeGraph {
  import opened Seqs

  /** A file is identified by its name: the database never holds two entries of one name. */
  type File = string

  type Graph = map<File, seq<File>>

  ghost predicate Closed(g: Graph) {
    forall f, x :: f in g && x in g[f] ==> x in g
  }

  /** `p` lists the files met after `a` on a walk along include edges. */
  ghost predicate Walks(g: Graph, a: File, p: seq<File>)
    decreases |p|
  {
    p == [] || (a in g && p[0] in g[a] && Walks(g, p[0], p[1..]))
  }

  /** `b` is included by `a`, directly or transitively: one include edge or more. */
  ghost predicate Reaches(g: Graph, a: File, b: File) {
    exists p :: Walks(g, a, p) && p != [] && p[|p| - 1] == b
  }

  /** Every file of `s` comes after all the files it includes. */
  ghost predicate Ordered(g: Graph, s: seq<File>) {
    forall i, x :: 0 <= i < |s| && s[i] in g && x in g[s[i]] ==> x in s[..i]
  }

  lemma ReachesDirectly(g: Graph, a: File, b: File)
    requires a in g && b in g[a]
    ensures Reaches(g, a, b)
  {
    assert Walks(g, a, [b]);
  }

  lemma {:induction false} WalksJoin(g: Graph, a: File, p: seq<File>, q: seq<File>)
    requires Walks(g, a, p) && p != [] && Walks(g, p[|p| - 1], q)
    ensures Walks(g, a, p + q)
    decreases |p|
  {
    assert (p + q)[1..] == p[1..] + q;
    if |p| > 1 {
      WalksJoin(g, p[0], p[1..], q);
    } else {
      assert p[1..] + q == q;
    }
  }

  lemma ReachesTransitive(g: Graph, a: File, b: File, c: File)
    requires Reaches(g, a, b) && Reaches(g, b, c)
    ensures Reaches(g, a, c)
  {
    var p :| Walks(g, a, p) && p != [] && p[|p| - 1] == b;
    var q :| Walks(g, b, q) && q != [] && q[|q| - 1] == c;
    WalksJoin(g, a, p, q);
    assert (p + q)[|p + q| - 1] == c;
  }

  lemma ReachesOneMore(g: Graph, a: File, b: File, c: File)
    requires Reaches(g, a, b) && b in g && c in g[b]
    ensures Reaches(g, a, c)
  {
    ReachesDirectly(g, b, c);
    ReachesTransitive(g, a, b, c);
  }

  lemma {:induction false} WalkGoesBack(g: Graph, s: seq<File>, i: nat, p: seq<File>)
    requires Ordered(g, s) && i < |s| && Walks(g, s[i], p) && p != []
    ensures p[|p| - 1] in s[..i]
    decreases |p|
  {
    var j :| 0 <= j < i && s[j] == p[0];
    if |p| > 1 {
      WalkGoesBack(g, s, j, p[1..]);
    }
  }

  /** Order along direct includes gives order along transitive includes. */
  lemma OrderedTransitively(g: Graph, s: seq<File>, i: nat, x: File)
    requires Ordered(g, s) && i < |s| && Reaches(g, s[i], x)
    ensures x in s[..i]
  {
    var p :| Walks(g, s[i], p) && p != [] && p[|p| - 1] == x;
    WalkGoesBack(g, s, i, p);
  }

  /** A file listed in an ordered, duplicate-free list is on no include cycle. */
  lemma OrderedIsAcyclic(g: Graph, s: seq<File>, x: File)
    requires Ordered(g, s) && NoDup(s) && x in s
    ensures !Reaches(g, x, x)
  {
    var i :| 0 <= i < |s| && s[i] == x;
    if Reaches(g, x, x) {
      OrderedTransitively(g, s, i, x);
      assert false;
    }
  }

  /** An ordered list is closed under reaching. */
  lemma OrderedIsClosed(g: Graph, s: seq<File>, x: File, y: File)
    requires Ordered(g, s) && x in s && Reaches(g, x, y)
    ensures y in s
  {
    var i :| 0 <= i < |s| && s[i] == x;
    OrderedTransitively(g, s, i, y);
  }

  /** Selecting files from an ordered list keeps the order, behind a list `before` that holds what was dropped. */
  lemma {:induction false} FilterOrdered(g: Graph, before: seq<File>, s: seq<File>, keep: File -> bool)
    requires Ordered(g, before) && Ordered(g, s)
    requires forall x, y :: x in s && keep(x) && x in g && y in g[x] && !keep(y) ==> y in before
    ensures Ordered(g, before + Filter(s, keep))
  {
    if s == [] {
      assert before + Filter(s, keep) == before;
    } else {
      var init, last := s[..|s| - 1], s[|s| - 1];
      assert forall i :: 0 <= i < |init| ==> init[..i] == s[..i];
      FilterOrdered(g, before, init, keep);
      FilterElems(init, keep);
      var done := before + Filter(init, keep);
      var all := before + Filter(s, keep);
      assert keep(last) ==> all == done + [last];
      assert !keep(last) ==> all == done;
      assert last == s[|init|] && s[..|init|] == init;
      forall i, x | 0 <= i < |all| && all[i] in g && x in g[all[i]]
        ensures x in all[..i]
      {
        if i < |done| {
          assert all[..i] == done[..i] && all[i] == done[i];
        } else {
          assert all[..i] == done;
        }
      }
    }
  }

  /** And without such a list, if nothing that is kept includes what was dropped. */
  lemma FilterStaysOrdered(g: Graph, s: seq<File>, keep: File -> bool)
    requires Ordered(g, s)
    requires forall x, y :: x in s && keep(x) && x in g && y in g[x] ==> keep(y)
    ensures Ordered(g, Filter(s, keep))
  {
    FilterOrdered(g, [], s, keep);
    assert [] + Filter(s, keep) == Filter(s, keep);
  }
}
