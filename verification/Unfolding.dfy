/**
 * The order of the lists. Without any flag, the includes of a file can be written out by going into each
 * includee in turn, as often as it is met; the search lists what is written out, each file at its first mention.
 */
module Unfolding {
  import opened Seqs
  import opened IncludeGraph
  import opened IncludeWalk
  import opened CycleTrace
  import opened WalkProofs
  import opened Closures
  import opened Planning

  /** What `f` includes, written out, and `f` behind it. A file is not gone into below itself. */
  function Unfold(g: Graph, above: set<File>, f: File): seq<File>
    requires Closed(g) && f in g
    decreases g.Keys - above, 0
  {
    if f in above then [] else
    assert forall x :: x in g[f] ==> x in g;
    UnfoldAll(g, above + {f}, g[f]) + [f]
  }

  function UnfoldAll(g: Graph, above: set<File>, es: seq<File>): seq<File>
    requires Closed(g) && Elems(es) <= g.Keys
    decreases g.Keys - above, |es|
  {
    if es == [] then [] else
    assert es[0] in Elems(es);
    Unfold(g, above, es[0]) + UnfoldAll(g, above, es[1..])
  }

  /** Only files met or reached are written out. */
  lemma {:induction false} UnfoldAllReaches(g: Graph, above: set<File>, es: seq<File>, x: File)
    requires Closed(g) && Elems(es) <= g.Keys && x in UnfoldAll(g, above, es)
    ensures exists e :: e in es && (x == e || Reaches(g, e, x))
    decreases g.Keys - above, |es|
  {
    assert es[0] in Elems(es) && es == [es[0]] + es[1..];
    if x in Unfold(g, above, es[0]) {
      UnfoldReaches(g, above, es[0], x);
    } else {
      UnfoldAllReaches(g, above, es[1..], x);
      var e :| e in es[1..] && (x == e || Reaches(g, e, x));
      assert e in es;
    }
  }

  lemma {:induction false} UnfoldReaches(g: Graph, above: set<File>, f: File, x: File)
    requires Closed(g) && f in g && x in Unfold(g, above, f)
    ensures x == f || Reaches(g, f, x)
    decreases g.Keys - above, 0
  {
    if x != f {
      UnfoldAllReaches(g, above + {f}, g[f], x);
      var e :| e in g[f] && (x == e || Reaches(g, e, x));
      ReachesDirectly(g, f, e);
      if x != e {
        ReachesTransitive(g, f, e, x);
      }
    }
  }

  /** Nothing that `f` is or reaches is in `above`, and none of it is on a cycle. */
  ghost predicate ClearOf(g: Graph, above: set<File>, f: File) {
    forall x :: x == f || Reaches(g, f, x) ==> x !in above && !Reaches(g, x, x)
  }

  lemma ClearBelow(g: Graph, above: set<File>, f: File, e: File)
    requires f in g && e in g[f] && ClearOf(g, above, f)
    ensures ClearOf(g, above + {f}, e)
  {
    ReachesDirectly(g, f, e);
    forall x | x == e || Reaches(g, e, x) ensures x !in above + {f} && !Reaches(g, x, x) {
      if x != e {
        ReachesTransitive(g, f, e, x);
      }
    }
  }

  /** Without a cycle in reach no file is met below itself, so it does not matter what stands above. */
  lemma {:induction false} UnfoldIsPlain(g: Graph, above: set<File>, above': set<File>, f: File)
    requires Closed(g) && f in g && ClearOf(g, above, f) && ClearOf(g, above', f)
    ensures Unfold(g, above, f) == Unfold(g, above', f)
    decreases g.Keys - above, 0
  {
    forall e | e in g[f] ensures ClearOf(g, above + {f}, e) && ClearOf(g, above' + {f}, e) {
      ClearBelow(g, above, f, e);
      ClearBelow(g, above', f, e);
    }
    UnfoldAllIsPlain(g, above + {f}, above' + {f}, g[f]);
  }

  lemma {:induction false} UnfoldAllIsPlain(g: Graph, above: set<File>, above': set<File>, es: seq<File>)
    requires Closed(g) && Elems(es) <= g.Keys
    requires forall e :: e in es ==> ClearOf(g, above, e) && ClearOf(g, above', e)
    ensures UnfoldAll(g, above, es) == UnfoldAll(g, above', es)
    decreases g.Keys - above, |es|
  {
    if es != [] {
      assert es[0] in Elems(es) && es[0] in es;
      UnfoldIsPlain(g, above, above', es[0]);
      UnfoldAllIsPlain(g, above, above', es[1..]);
    }
  }

  /** The search adds what is written out, as far as it is not there. */
  lemma {:induction false} VisitAllUnfolds(g: Graph, w: Walk, stack: seq<File>, includer: File, es: seq<File>)
    requires Closed(g) && Elems(es) <= g.Keys && Inv(g, w, stack)
    requires stack != [] ==> Elems(es) <= Elems(g[stack[|stack| - 1]])
    ensures var r := VisitAll(g, w, includer, es);
      r.Done? ==> r.w.out == AddAll(w.out, UnfoldAll(g, w.onPath, es))
    decreases g.Keys - w.been, |es|
  {
    if es != [] {
      assert es[0] in Elems(es);
      var c := Check(w, includer, es[0]);
      VisitKeeps(g, c, stack, es[0]);
      VisitUnfolds(g, c, stack, es[0]);
      var r := Visit(g, c, es[0]);
      if r.Done? {
        VisitAllUnfolds(g, r.w, stack, includer, es[1..]);
        AddAllJoin(w.out, Unfold(g, w.onPath, es[0]), UnfoldAll(g, w.onPath, es[1..]));
      }
    }
  }

  lemma {:induction false} VisitUnfolds(g: Graph, w: Walk, stack: seq<File>, h: File)
    requires Closed(g) && h in g && Inv(g, w, stack)
    requires stack != [] ==> h in g[stack[|stack| - 1]]
    ensures var r := Visit(g, w, h);
      r.Done? ==> r.w.out == AddAll(w.out, Unfold(g, w.onPath, h))
    decreases g.Keys - w.been, 0
  {
    if h in w.onPath {
      var k :| 0 <= k < |stack| && stack[k] == h;
      TraceFindsCycle(g, stack, k);
    } else if h in w.been {
      forall x | x in Unfold(g, w.onPath, h) ensures x in w.out {
        UnfoldReaches(g, w.onPath, h, x);
        if x != h {
          OrderedIsClosed(g, w.out, h, x);
        }
      }
      AddAllPresent(w.out, Unfold(g, w.onPath, h));
    } else {
      var v := w.(been := w.been + {h}, onPath := w.onPath + {h});
      VisitAllKeeps(g, v, stack + [h], h, g[h]);
      VisitAllUnfolds(g, v, stack + [h], h, g[h]);
      var r := VisitAll(g, v, h, g[h]);
      if r.Done? {
        AddAllJoin(w.out, UnfoldAll(g, w.onPath + {h}, g[h]), [h]);
        AddOne(r.w.out, h);
      }
    }
  }

  lemma AddOne(s: seq<File>, h: File)
    requires h !in Elems(s)
    ensures AddAll(s, [h]) == s + [h]
  {
    assert [h][1..] == [];
  }

  /** The list of an outer file is all that it includes, written out, each file at its first mention. */
  lemma ClosureIsUnfolding(g: Graph, c: File)
    requires Closed(g) && c in g && ClosureOf(g, c).Some?
    ensures Elems(g[c]) <= g.Keys && ClosureOf(g, c).value == Distinct(UnfoldAll(g, {}, g[c]))
  {
    StartInv(g, {}, []);
    VisitAllUnfolds(g, Start({}, []), [], c, g[c]);
    AddAllIsDistinct(UnfoldAll(g, {}, g[c]));
  }

  // ----- the grand list -----

  /** The files of the permitted listings, one listing after the other. */
  function Pool(ls: seq<Listing>): seq<File> {
    if ls == [] then [] else (if ls[0].permitted then ls[0].files else []) + Pool(ls[1..])
  }

  /** A search of files that are all listed adds nothing. */
  lemma {:induction false} VisitAllListed(g: Graph, w: Walk, includer: File, es: seq<File>)
    requires Closed(g) && Elems(es) <= g.Keys && forall x :: x in es ==> x in w.been && x !in w.onPath
    ensures var r := VisitAll(g, w, includer, es);
      r.Done? && SamePlace(r.w, w)
    decreases |es|
  {
    if es != [] {
      assert es[0] in Elems(es);
      VisitAllListed(g, Check(w, includer, es[0]), includer, es[1..]);
    }
  }

  /** A search of files each behind all it includes adds them as they come. */
  lemma {:induction false} VisitAllInOrder(g: Graph, w: Walk, includer: File, es: seq<File>)
    requires Closed(g) && Elems(es) <= g.Keys && Inv(g, w, [])
    requires forall i, x :: 0 <= i < |es| && es[i] in g && x in g[es[i]] ==> x in w.out || x in es[..i]
    ensures var r := VisitAll(g, w, includer, es);
      r.Done? && r.w.out == AddAll(w.out, es)
    decreases |es|
  {
    if es != [] {
      var h := es[0];
      assert h in Elems(es) && es[..0] == [];
      var c := Check(w, includer, h);
      var v := c.(been := c.been + {h}, onPath := c.onPath + {h});
      forall x | h !in w.been && x in g[h] ensures x in v.been && x !in v.onPath {
        assert x in Elems(w.out);
      }
      if h !in w.been {
        VisitAllListed(g, v, h, g[h]);
      }
      VisitKeeps(g, c, [], h);
      var r := Visit(g, c, h);
      assert r.Done? && r.w.out == AddIfAbsent(w.out, h) by {
        assert h in w.been ==> h in Elems(w.out);
        assert h !in w.been ==> h !in Elems(w.out);
      }
      assert forall i :: 0 < i < |es| ==> es[1..][i - 1] == es[i] && es[..i] == [h] + es[1..][..i - 1];
      VisitAllInOrder(g, r.w, includer, es[1..]);
    }
  }

  /** The grand list takes the permitted listings one after the other, each file at its first mention. */
  lemma {:induction false} GrandPassPools(g: Graph, w: Walk, ls: seq<Listing>)
    requires Closed(g) && Inv(g, w, []) && AreClosures(g, ls)
    ensures var r := GrandPass(g, w, ls);
      r.Done? && r.w.out == AddAll(w.out, Pool(ls))
    decreases |ls|
  {
    if ls != [] {
      assert ls[0] in ls && forall l :: l in ls[1..] ==> l in ls;
      var more := if ls[0].permitted then ls[0].files else [];
      GrandTurnAdds(g, w, ls[0]);
      VisitAllInOrder(g, w, ls[0].name, ls[0].files);
      var v := GrandTurn(g, w, ls[0]).w;
      GrandPassPools(g, v, ls[1..]);
      AddAllJoin(w.out, more, Pool(ls[1..]));
    }
  }

  lemma GrandIsPool(g: Graph, ls: seq<Listing>)
    requires Closed(g) && AreClosures(g, ls)
    ensures var r := GrandPass(g, Start({}, []), ls);
      r.Done? && r.w.out == Distinct(Pool(ls))
  {
    StartInv(g, {}, []);
    GrandPassPools(g, Start({}, []), ls);
    AddAllIsDistinct(Pool(ls));
  }
}
