/** The cycle trace ends in the fatal exactly when it should. */
module CycleTrace {
  import opened Seqs
  import opened IncludeGraph
  import opened IncludeWalk

  /** The files being visited, outermost first: an include path without repetition. */
  ghost predicate IsStack(g: Graph, stack: seq<File>) {
    && NoDup(stack)
    && (forall i :: 0 <= i < |stack| ==> stack[i] in g)
    && (forall i :: 0 < i < |stack| ==> stack[i] in g[stack[i - 1]])
  }

  /** `f` has been looked at: none of its includes on the path is `s` or left untraced. */
  ghost predicate Looked(g: Graph, onPath: set<File>, traced: set<File>, s: File, es: seq<File>) {
    forall x :: x in es && x in onPath ==> x != s && x in traced
  }

  lemma {:induction false} TraceLooks(g: Graph, onPath: set<File>, traced: set<File>, s: File, f: File)
    requires Closed(g) && f in g
    ensures var r := Trace(g, onPath, traced, s, f);
      r.Some? ==> (f in r.value
        && forall x :: x in r.value - traced ==> x in g && Looked(g, onPath, r.value, s, g[x]))
    decreases g.Keys - traced, 0
  {
    if f !in traced {
      TraceAllLooks(g, onPath, traced + {f}, s, g[f]);
    }
  }

  lemma {:induction false} TraceAllLooks(g: Graph, onPath: set<File>, traced: set<File>, s: File, es: seq<File>)
    requires Closed(g) && Elems(es) <= g.Keys
    ensures var r := TraceAll(g, onPath, traced, s, es);
      r.Some? ==> (Looked(g, onPath, r.value, s, es)
        && forall x :: x in r.value - traced ==> x in g && Looked(g, onPath, r.value, s, g[x]))
    decreases g.Keys - traced, |es|
  {
    if es != [] {
      assert es[0] in Elems(es);
      if es[0] !in onPath {
        TraceAllLooks(g, onPath, traced, s, es[1..]);
      } else if es[0] != s {
        TraceLooks(g, onPath, traced, s, es[0]);
        var r := Trace(g, onPath, traced, s, es[0]);
        if r.Some? {
          TraceAllLooks(g, onPath, r.value, s, es[1..]);
        }
      }
    }
  }

  /** At a back edge to `stack[k]` the trace always ends in the fatal. */
  lemma {:induction false} TraceFindsCycle(g: Graph, stack: seq<File>, k: nat)
    requires Closed(g) && IsStack(g, stack) && k < |stack|
    requires stack[k] in g[stack[|stack| - 1]]
    ensures Trace(g, Elems(stack), {}, stack[k], stack[k]) == None
  {
    var s, onPath := stack[k], Elems(stack);
    var r := Trace(g, onPath, {}, s, s);
    if r.Some? {
      TraceLooks(g, onPath, {}, s, s);
      var i := k;
      while i < |stack| - 1
        invariant k <= i < |stack| && stack[i] in r.value
      {
        assert stack[i] in r.value - {} && stack[i + 1] in g[stack[i]] && stack[i + 1] in onPath;
        i := i + 1;
      }
      assert false;
    }
  }

  /** The fatal is only reached along include edges that lead back to `s`. */
  lemma {:induction false} TraceIsSound(g: Graph, onPath: set<File>, traced: set<File>, s: File, f: File)
    requires Closed(g) && f in g
    ensures Trace(g, onPath, traced, s, f) == None ==> Reaches(g, f, s)
    decreases g.Keys - traced, 0
  {
    if f !in traced {
      TraceAllIsSound(g, onPath, traced + {f}, s, f, g[f]);
    }
  }

  lemma {:induction false} TraceAllIsSound(g: Graph, onPath: set<File>, traced: set<File>, s: File,
                                           f: File, es: seq<File>)
    requires Closed(g) && f in g && Elems(es) <= Elems(g[f]) && Elems(es) <= g.Keys
    ensures TraceAll(g, onPath, traced, s, es) == None ==> Reaches(g, f, s)
    decreases g.Keys - traced, |es|
  {
    if es != [] {
      assert es[0] in Elems(es);
      ReachesDirectly(g, f, es[0]);
      if es[0] !in onPath {
        TraceAllIsSound(g, onPath, traced, s, f, es[1..]);
      } else if es[0] != s {
        TraceIsSound(g, onPath, traced, s, es[0]);
        var r := Trace(g, onPath, traced, s, es[0]);
        if r.Some? {
          TraceAllIsSound(g, onPath, r.value, s, f, es[1..]);
        } else {
          ReachesTransitive(g, f, es[0], s);
        }
      }
    }
  }
}
