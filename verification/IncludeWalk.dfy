/**
 * The marked depth-first search over include edges, as a function of its flags.
 * The three flag fields of a file become sets: `been` (beenHere), `onPath` (mayBeCycle)
 * and `traced` (isCycle). `marked` holds the files that have a platform-dependent include
 * and so must not be included directly; `errors` is what was reported about them.
 */
module IncludeWalk {
  import opened Seqs
  import opened IncludeGraph

  datatype Report = DirectInclude(included: File, includer: File)

  datatype Walk = Walk(been: set<File>, onPath: set<File>, traced: set<File>,
                       marked: set<File>, out: seq<File>, errors: seq<Report>)

  /** `CycleAt(s)` is the fatal end of the cycle trace for `s`. */
  datatype Outcome = Done(w: Walk) | CycleAt(at: File)

  function Start(marked: set<File>, errors: seq<Report>): Walk {
    Walk({}, {}, {}, marked, [], errors)
  }

  /** An include of `h` by `includer` is reported once, if `h` is marked. */
  function Check(w: Walk, includer: File, h: File): Walk {
    if h in w.marked
    then w.(marked := w.marked - {h}, errors := w.errors + [DirectInclude(h, includer)])
    else w
  }

  function VisitAll(g: Graph, w: Walk, includer: File, es: seq<File>): (r: Outcome)
    requires Closed(g) && Elems(es) <= g.Keys
    ensures r.Done? ==> w.been <= r.w.been
    decreases g.Keys - w.been, |es|
  {
    if es == [] then Done(w) else
    assert es[0] in Elems(es);
    match Visit(g, Check(w, includer, es[0]), es[0])
    case CycleAt(s) => CycleAt(s)
    case Done(v) => VisitAll(g, v, includer, es[1..])
  }

  function Visit(g: Graph, w: Walk, h: File): (r: Outcome)
    requires Closed(g) && h in g
    ensures r.Done? ==> w.been <= r.w.been
    decreases g.Keys - w.been, 0
  {
    if h in w.been then
      if h !in w.onPath then Done(w) else
      match Trace(g, w.onPath, w.traced, h, h)
      case None => CycleAt(h)
      case Some(traced) => Done(w.(traced := traced))
    else
      match VisitAll(g, w.(been := w.been + {h}, onPath := w.onPath + {h}), h, g[h])
      case CycleAt(s) => CycleAt(s)
      case Done(v) => Done(v.(onPath := v.onPath - {h}, out := v.out + [h]))
  }

  /** The cycle trace: `None` when it meets an edge back to `s`, else the files traced. */
  function Trace(g: Graph, onPath: set<File>, traced: set<File>, s: File, f: File): (r: Option<set<File>>)
    requires Closed(g) && f in g
    ensures r.Some? ==> traced <= r.value
    decreases g.Keys - traced, 0
  {
    if f in traced then Some(traced)
    else TraceAll(g, onPath, traced + {f}, s, g[f])
  }

  function TraceAll(g: Graph, onPath: set<File>, traced: set<File>, s: File, es: seq<File>)
    : (r: Option<set<File>>)
    requires Closed(g) && Elems(es) <= g.Keys
    ensures r.Some? ==> traced <= r.value
    decreases g.Keys - traced, |es|
  {
    if es == [] then Some(traced) else
    assert es[0] in Elems(es);
    if es[0] !in onPath then TraceAll(g, onPath, traced, s, es[1..])
    else if es[0] == s then None else
    match Trace(g, onPath, traced, s, es[0])
    case None => None
    case Some(t) => TraceAll(g, onPath, t, s, es[1..])
  }

  // ----- the two searches over the rest of a list, from position i -----

  function VisitFrom(g: Graph, w: Walk, includer: File, es: seq<File>, i: nat): Outcome
    requires Closed(g) && Elems(es) <= g.Keys && i <= |es|
  {
    assert forall x :: x in es[i..] ==> x in Elems(es);
    VisitAll(g, w, includer, es[i..])
  }

  lemma VisitFromStep(g: Graph, w: Walk, includer: File, es: seq<File>, i: nat)
    requires Closed(g) && Elems(es) <= g.Keys && i < |es|
    ensures es[i] in g
    ensures VisitFrom(g, w, includer, es, i) ==
      match Visit(g, Check(w, includer, es[i]), es[i])
      case CycleAt(s) => CycleAt(s)
      case Done(v) => VisitFrom(g, v, includer, es, i + 1)
  {
    assert es[i] in Elems(es);
    assert es[i..][1..] == es[i + 1..];
  }

  function TraceFrom(g: Graph, onPath: set<File>, traced: set<File>, s: File, es: seq<File>, i: nat)
    : Option<set<File>>
    requires Closed(g) && Elems(es) <= g.Keys && i <= |es|
  {
    assert forall x :: x in es[i..] ==> x in Elems(es);
    TraceAll(g, onPath, traced, s, es[i..])
  }

  lemma TraceFromStep(g: Graph, onPath: set<File>, traced: set<File>, s: File, es: seq<File>, i: nat)
    requires Closed(g) && Elems(es) <= g.Keys && i < |es|
    ensures es[i] in g
    ensures TraceFrom(g, onPath, traced, s, es, i) ==
      if es[i] !in onPath then TraceFrom(g, onPath, traced, s, es, i + 1)
      else if es[i] == s then None
      else
        match Trace(g, onPath, traced, s, es[i])
        case None => None
        case Some(t) => TraceFrom(g, onPath, t, s, es, i + 1)
  {
    assert es[i] in Elems(es);
    assert es[i..][1..] == es[i + 1..];
  }
}
