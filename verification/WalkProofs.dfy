/** What every step of the marked search keeps. */
module WalkProofs {
  import opened Seqs
  import opened IncludeGraph
  import opened IncludeWalk
  import opened CycleTrace

  /**
   * The flags between two steps, with `stack` the files being visited: `onPath` is the stack,
   * `been` is the stack and the output, nothing is traced yet, and the output is in include order.
   */
  ghost predicate Inv(g: Graph, w: Walk, stack: seq<File>) {
    && IsStack(g, stack)
    && w.onPath == Elems(stack)
    && w.traced == {}
    && w.been == Elems(w.out) + w.onPath
    && Elems(w.out) !! w.onPath
    && NoDup(w.out)
    && (forall x :: x in w.out ==> x in g)
    && Ordered(g, w.out)
  }

  lemma {:induction false} VisitAllKeeps(g: Graph, w: Walk, stack: seq<File>, includer: File, es: seq<File>)
    requires Closed(g) && Elems(es) <= g.Keys && Inv(g, w, stack)
    requires stack != [] ==> Elems(es) <= Elems(g[stack[|stack| - 1]])
    ensures var r := VisitAll(g, w, includer, es);
      r.Done? ==> Inv(g, r.w, stack) && w.out <= r.w.out && Elems(es) <= Elems(r.w.out)
    decreases g.Keys - w.been, |es|
  {
    if es != [] {
      assert es[0] in Elems(es);
      var c := Check(w, includer, es[0]);
      VisitKeeps(g, c, stack, es[0]);
      var r := Visit(g, c, es[0]);
      if r.Done? {
        VisitAllKeeps(g, r.w, stack, includer, es[1..]);
        assert es == [es[0]] + es[1..];
      }
    }
  }

  lemma {:induction false} VisitKeeps(g: Graph, w: Walk, stack: seq<File>, h: File)
    requires Closed(g) && h in g && Inv(g, w, stack)
    requires stack != [] ==> h in g[stack[|stack| - 1]]
    ensures var r := Visit(g, w, h);
      r.Done? ==> Inv(g, r.w, stack) && w.out <= r.w.out && h in r.w.out
    decreases g.Keys - w.been, 0
  {
    if h in w.onPath {
      var k :| 0 <= k < |stack| && stack[k] == h;
      TraceFindsCycle(g, stack, k);
    } else if h !in w.been {
      var v := w.(been := w.been + {h}, onPath := w.onPath + {h});
      VisitAllKeeps(g, v, stack + [h], h, g[h]);
      var r := VisitAll(g, v, h, g[h]);
      if r.Done? {
        AppendKeeps(g, r.w, stack, h);
      }
    }
  }

  lemma AppendKeeps(g: Graph, w: Walk, stack: seq<File>, h: File)
    requires h in g && Inv(g, w, stack + [h]) && Elems(g[h]) <= Elems(w.out)
    ensures Inv(g, w.(onPath := w.onPath - {h}, out := w.out + [h]), stack)
  {
    var out := w.out + [h];
    assert forall i :: 0 <= i < |w.out| ==> out[..i] == w.out[..i];
    assert out[..|w.out|] == w.out;
    assert forall x :: x in g[h] ==> x in Elems(g[h]);
    var path := stack + [h];
    assert forall i :: 0 <= i < |stack| ==> path[i] == stack[i] && path[i] != path[|stack|];
    assert forall x :: x in path <==> x in stack || x == h;
  }

  /** The search stays within what `root` reaches, and a fatal names a file on a cycle that `root` reaches. */
  lemma {:induction false} VisitAllReaches(g: Graph, w: Walk, root: File, includer: File, es: seq<File>)
    requires Closed(g) && Elems(es) <= g.Keys
    requires forall x :: x in es ==> Reaches(g, root, x)
    ensures match VisitAll(g, w, includer, es)
      case Done(v) => forall x :: x in v.out ==> x in w.out || Reaches(g, root, x)
      case CycleAt(s) => Reaches(g, root, s) && Reaches(g, s, s)
    decreases g.Keys - w.been, |es|
  {
    if es != [] {
      assert es[0] in Elems(es);
      var c := Check(w, includer, es[0]);
      VisitReaches(g, c, root, es[0]);
      var r := Visit(g, c, es[0]);
      if r.Done? {
        VisitAllReaches(g, r.w, root, includer, es[1..]);
      }
    }
  }

  lemma {:induction false} VisitReaches(g: Graph, w: Walk, root: File, h: File)
    requires Closed(g) && h in g && Reaches(g, root, h)
    ensures match Visit(g, w, h)
      case Done(v) => forall x :: x in v.out ==> x in w.out || Reaches(g, root, x)
      case CycleAt(s) => Reaches(g, root, s) && Reaches(g, s, s)
    decreases g.Keys - w.been, 0
  {
    if h in w.been {
      TraceIsSound(g, w.onPath, w.traced, h, h);
    } else {
      forall x | x in g[h]
        ensures Reaches(g, root, x)
      {
        ReachesOneMore(g, root, h, x);
      }
      VisitAllReaches(g, w.(been := w.been + {h}, onPath := w.onPath + {h}), root, h, g[h]);
    }
  }

  /** Two searches in the same place, whatever was marked or reported. */
  ghost predicate SamePlace(w: Walk, v: Walk) {
    w.been == v.been && w.onPath == v.onPath && w.traced == v.traced && w.out == v.out
  }

  ghost predicate SameOutcome(r: Outcome, q: Outcome) {
    match (r, q)
    case (Done(w), Done(v)) => SamePlace(w, v)
    case (CycleAt(s), CycleAt(t)) => s == t
    case _ => false
  }

  lemma {:induction false} VisitAllIgnoresMarks(g: Graph, w: Walk, v: Walk, includer: File, es: seq<File>)
    requires Closed(g) && Elems(es) <= g.Keys && SamePlace(w, v)
    ensures SameOutcome(VisitAll(g, w, includer, es), VisitAll(g, v, includer, es))
    decreases g.Keys - w.been, |es|
  {
    if es != [] {
      assert es[0] in Elems(es);
      var cw, cv := Check(w, includer, es[0]), Check(v, includer, es[0]);
      VisitIgnoresMarks(g, cw, cv, es[0]);
      var r, q := Visit(g, cw, es[0]), Visit(g, cv, es[0]);
      if r.Done? {
        VisitAllIgnoresMarks(g, r.w, q.w, includer, es[1..]);
      }
    }
  }

  lemma {:induction false} VisitIgnoresMarks(g: Graph, w: Walk, v: Walk, h: File)
    requires Closed(g) && h in g && SamePlace(w, v)
    ensures SameOutcome(Visit(g, w, h), Visit(g, v, h))
    decreases g.Keys - w.been, 0
  {
    if h !in w.been {
      VisitAllIgnoresMarks(g, w.(been := w.been + {h}, onPath := w.onPath + {h}),
                           v.(been := v.been + {h}, onPath := v.onPath + {h}), h, g[h]);
    }
  }

  /** The files named by a list of reports. */
  function Reported(errors: seq<Report>): seq<File> {
    if errors == [] then []
    else Reported(errors[..|errors| - 1]) + [errors[|errors| - 1].included]
  }

  /** From `w` to `v`, each mark that was lifted was reported, once, and nothing else was. */
  ghost predicate Reports(w: Walk, v: Walk) {
    && v.marked <= w.marked
    && w.errors <= v.errors
    && var news := Reported(v.errors[|w.errors|..]);
       NoDup(news) && Elems(news) == w.marked - v.marked
  }

  lemma ReportsCheck(w: Walk, includer: File, h: File)
    ensures Reports(w, Check(w, includer, h))
  {
    var v := Check(w, includer, h);
    if h in w.marked {
      var e := DirectInclude(h, includer);
      assert v.errors[|w.errors|..] == [e];
      assert [e][..0] == [];
      assert Reported([e]) == [h];
    }
  }

  lemma {:induction false} ReportedJoin(a: seq<Report>, b: seq<Report>)
    ensures Reported(a + b) == Reported(a) + Reported(b)
    decreases |b|
  {
    if b == [] {
      assert a + b == a;
    } else {
      assert (a + b)[..|a + b| - 1] == a + b[..|b| - 1];
      ReportedJoin(a, b[..|b| - 1]);
    }
  }

  lemma ReportsTransitive(u: Walk, v: Walk, w: Walk)
    requires Reports(u, v) && Reports(v, w)
    ensures Reports(u, w)
  {
    var a, b := v.errors[|u.errors|..], w.errors[|v.errors|..];
    assert w.errors[|u.errors|..] == a + b;
    ReportedJoin(a, b);
    NoDupJoin(Reported(a), Reported(b));
    assert forall x :: x in Reported(a) ==> x in Elems(Reported(a));
    assert forall x :: x in Reported(b) ==> x in Elems(Reported(b));
    assert forall x :: x in u.marked - w.marked <==> x in Elems(Reported(a)) || x in Elems(Reported(b));
  }

  /** A search lifts the marks of the files it met, and of those only. */
  lemma {:induction false} VisitAllReports(g: Graph, w: Walk, includer: File, es: seq<File>)
    requires Closed(g) && Elems(es) <= g.Keys
    ensures var r := VisitAll(g, w, includer, es);
      r.Done? ==> (Reports(w, r.w)
        && w.marked - r.w.marked <= r.w.been && Elems(es) + (r.w.been - w.been) !! r.w.marked)
    decreases g.Keys - w.been, |es|
  {
    if es == [] {
      assert w.errors[|w.errors|..] == [];
    } else {
      assert es[0] in Elems(es);
      var c := Check(w, includer, es[0]);
      ReportsCheck(w, includer, es[0]);
      VisitReports(g, c, es[0]);
      var r := Visit(g, c, es[0]);
      if r.Done? {
        VisitAllReports(g, r.w, includer, es[1..]);
        var q := VisitAll(g, r.w, includer, es[1..]);
        if q.Done? {
          ReportsTransitive(w, c, r.w);
          ReportsTransitive(w, r.w, q.w);
          assert es == [es[0]] + es[1..];
          assert forall x :: x in es <==> x == es[0] || x in es[1..];
        }
      }
    }
  }

  lemma {:induction false} VisitReports(g: Graph, w: Walk, h: File)
    requires Closed(g) && h in g && h !in w.marked
    ensures var r := Visit(g, w, h);
      r.Done? ==> (Reports(w, r.w) && h in r.w.been
        && w.marked - r.w.marked <= r.w.been && r.w.been - w.been !! r.w.marked)
    decreases g.Keys - w.been, 0
  {
    if h in w.been {
      assert w.errors[|w.errors|..] == [];
    } else {
      VisitAllReports(g, w.(been := w.been + {h}, onPath := w.onPath + {h}), h, g[h]);
    }
  }

  /** `e` names an include that there is, by `root` or by a file that it reaches. */
  ghost predicate IsInclude(g: Graph, root: File, e: Report) {
    && (e.includer == root || Reaches(g, root, e.includer))
    && e.includer in g && e.included in g[e.includer]
  }

  /** The reports from position `n` on are such includes. */
  ghost predicate AreIncludes(g: Graph, root: File, errors: seq<Report>, n: nat) {
    forall i :: n <= i < |errors| ==> IsInclude(g, root, errors[i])
  }

  /** A report names a file and one that includes it. */
  lemma {:induction false} VisitAllNames(g: Graph, w: Walk, root: File, includer: File, es: seq<File>)
    requires Closed(g) && Elems(es) <= g.Keys && includer in g && Elems(es) <= Elems(g[includer])
    requires includer == root || Reaches(g, root, includer)
    ensures var r := VisitAll(g, w, includer, es);
      r.Done? ==> w.errors <= r.w.errors && AreIncludes(g, root, r.w.errors, |w.errors|)
    decreases g.Keys - w.been, |es|
  {
    if es != [] {
      assert es[0] in Elems(es) && es[0] in Elems(g[includer]);
      var c := Check(w, includer, es[0]);
      assert AreIncludes(g, root, c.errors, |w.errors|);
      ReachesDirectly(g, includer, es[0]);
      if includer != root {
        ReachesTransitive(g, root, includer, es[0]);
      }
      VisitNames(g, c, root, es[0]);
      var r := Visit(g, c, es[0]);
      if r.Done? {
        VisitAllNames(g, r.w, root, includer, es[1..]);
      }
    }
  }

  lemma {:induction false} VisitNames(g: Graph, w: Walk, root: File, h: File)
    requires Closed(g) && h in g && Reaches(g, root, h)
    ensures var r := Visit(g, w, h);
      r.Done? ==> w.errors <= r.w.errors && AreIncludes(g, root, r.w.errors, |w.errors|)
    decreases g.Keys - w.been, 0
  {
    if h !in w.been {
      VisitAllNames(g, w.(been := w.been + {h}, onPath := w.onPath + {h}), root, h, g[h]);
    }
  }
}
