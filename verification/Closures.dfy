/** The include closure of one file: what it needs, in an order a compiler can read. */
module Closures {
  import opened Seqs
  import opened IncludeGraph
  import opened IncludeWalk
  import opened WalkProofs

  /** The list built for `c`, from clear flags; `None` when the search ends in the fatal. */
  function ClosureOf(g: Graph, c: File): Option<seq<File>>
    requires Closed(g) && c in g
  {
    match VisitAll(g, Start({}, []), c, g[c])
    case CycleAt(_) => None
    case Done(v) => Some(v.out)
  }

  /** `c` reaches an include cycle. */
  ghost predicate MeetsCycle(g: Graph, c: File) {
    exists s :: Reaches(g, c, s) && Reaches(g, s, s)
  }

  /** `files` is all that `c` needs, once each, every file after whatever it includes. */
  ghost predicate IsClosure(g: Graph, c: File, files: seq<File>) {
    && NoDup(files)
    && Ordered(g, files)
    && (forall x :: x in files <==> Reaches(g, c, x))
    && (forall x :: x in files ==> x in g)
  }

  lemma StartInv(g: Graph, marked: set<File>, errors: seq<Report>)
    ensures Inv(g, Start(marked, errors), [])
  {}

  lemma IncludesAreReached(g: Graph, c: File)
    requires c in g
    ensures forall x :: x in g[c] ==> Reaches(g, c, x)
  {
    forall x | x in g[c] ensures Reaches(g, c, x) {
      ReachesDirectly(g, c, x);
    }
  }

  /** The search is fatal exactly when a cycle is in reach; otherwise it lists the closure in order. */
  lemma ClosureCorrect(g: Graph, c: File)
    requires Closed(g) && c in g
    ensures ClosureOf(g, c) == None <==> MeetsCycle(g, c)
    ensures ClosureOf(g, c).Some? ==> IsClosure(g, c, ClosureOf(g, c).value)
  {
    var w := Start({}, []);
    StartInv(g, {}, []);
    IncludesAreReached(g, c);
    VisitAllKeeps(g, w, [], c, g[c]);
    VisitAllReaches(g, w, c, c, g[c]);
    var r := VisitAll(g, w, c, g[c]);
    if r.Done? {
      forall x | Reaches(g, c, x) ensures x in r.w.out && !Reaches(g, x, x) {
        ListsReached(g, c, r.w.out, x);
        OrderedIsAcyclic(g, r.w.out, x);
      }
    }
  }

  lemma ListsReached(g: Graph, c: File, files: seq<File>, x: File)
    requires c in g && Elems(g[c]) <= Elems(files) && Ordered(g, files) && Reaches(g, c, x)
    ensures x in files
  {
    var p :| Walks(g, c, p) && p != [] && p[|p| - 1] == x;
    assert p[0] in Elems(g[c]);
    if |p| > 1 {
      assert p[1..][|p[1..]| - 1] == x;
      assert Reaches(g, p[0], x);
      OrderedIsClosed(g, files, p[0], x);
    }
  }

  /**
   * Order independence and flag hygiene: whatever was marked or reported before, a search from
   * clear flags yields the closure of `c`, and the files left with `been` set are those listed,
   * so clearing the flag along the list clears it everywhere.
   */
  lemma CFileFromClearFlags(g: Graph, c: File, marked: set<File>, errors: seq<Report>)
    requires Closed(g) && c in g
    ensures var w, closure := Start(marked, errors), ClosureOf(g, c);
      match VisitAll(g, w, c, g[c])
      case CycleAt(_) => closure == None
      case Done(v) =>
        && closure == Some(v.out)
        && v.been == Elems(v.out) && v.onPath == {} && v.traced == {}
        && v.marked == marked - Elems(v.out)
        && Reports(w, Start(v.marked, v.errors))
  {
    var w := Start(marked, errors);
    StartInv(g, marked, errors);
    VisitAllIgnoresMarks(g, Start({}, []), w, c, g[c]);
    VisitAllKeeps(g, w, [], c, g[c]);
    VisitAllReports(g, w, c, g[c]);
  }

  /** What it reports are includes by `c`, or by files that `c` reaches. */
  lemma CFileNames(g: Graph, c: File, marked: set<File>, errors: seq<Report>)
    requires Closed(g) && c in g
    ensures var r := VisitAll(g, Start(marked, errors), c, g[c]);
      r.Done? ==> AreIncludes(g, c, r.w.errors, |errors|)
  {
    VisitAllNames(g, Start(marked, errors), c, c, g[c]);
  }
}
