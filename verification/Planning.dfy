/**
 * What `compute` works out before anything is written: a listing per outer file, the grand
 * include list, and how often each file is needed.
 */
module Planning {
  import opened Seqs
  import opened IncludeGraph
  import opened IncludeWalk
  import opened WalkProofs
  import opened Closures

  /** The result list of one outer file; `permitted` says it may use the grand include file. */
  datatype Listing = Listing(name: File, permitted: bool, files: seq<File>)

  datatype Plan = Plan(listings: seq<Listing>, grand: seq<File>, threshold: int, pds: map<File, seq<File>>)

  /** The number of listings, among those permitted, that hold `f`. */
  function Count(ls: seq<Listing>, f: File): nat {
    if ls == [] then 0 else
    var last := ls[|ls| - 1];
    Count(ls[..|ls| - 1], f) + if last.permitted && f in last.files then 1 else 0
  }

  ghost function Counted(ls: seq<Listing>, f: File): set<nat> {
    set k: nat | k < |ls| && ls[k].permitted && f in ls[k].files
  }

  lemma {:induction false} CountIsCardinality(ls: seq<Listing>, f: File)
    ensures Count(ls, f) == |Counted(ls, f)|
  {
    if ls != [] {
      var n := |ls| - 1;
      CountIsCardinality(ls[..n], f);
      CountedSnoc(ls, n, f);
    }
  }

  lemma CountedSnoc(ls: seq<Listing>, n: nat, f: File)
    requires |ls| == n + 1
    ensures Counted(ls, f) == Counted(ls[..n], f) + if ls[n].permitted && f in ls[n].files then {n} else {}
    ensures n !in Counted(ls[..n], f)
  {
    assert forall k: nat :: k < n ==> ls[..n][k] == ls[k];
    assert forall k: nat :: k in Counted(ls, f) <==>
      k in Counted(ls[..n], f) || (k == n && ls[n].permitted && f in ls[n].files);
  }

  /** Counts never fall along an include edge. */
  lemma {:induction false} CountNeverFalls(g: Graph, ls: seq<Listing>, h: File, x: File)
    requires forall l :: l in ls ==> Ordered(g, l.files)
    requires h in g && x in g[h]
    ensures Count(ls, h) <= Count(ls, x)
  {
    if ls != [] {
      CountNeverFalls(g, ls[..|ls| - 1], h, x);
      var last := ls[|ls| - 1];
      assert last in ls;
      if h in last.files {
        ReachesDirectly(g, h, x);
        OrderedIsClosed(g, last.files, h, x);
      }
    }
  }

  /** The grand pass searches every permitted listing again, without resetting any flag. */
  function GrandTurn(g: Graph, w: Walk, l: Listing): Outcome
    requires Closed(g) && Elems(l.files) <= g.Keys
  {
    if l.permitted then VisitAll(g, w, l.name, l.files) else Done(w)
  }

  function GrandPass(g: Graph, w: Walk, ls: seq<Listing>): Outcome
    requires Closed(g) && forall l :: l in ls ==> Elems(l.files) <= g.Keys
    decreases |ls|
  {
    if ls == [] then Done(w) else
    match GrandTurn(g, w, ls[0])
    case CycleAt(s) => CycleAt(s)
    case Done(v) => GrandPass(g, v, ls[1..])
  }

  /** The grand pass, too, lists the same files whatever is marked. */
  lemma {:induction false} GrandPassIgnoresMarks(g: Graph, w: Walk, v: Walk, ls: seq<Listing>)
    requires Closed(g) && SamePlace(w, v) && forall l :: l in ls ==> Elems(l.files) <= g.Keys
    ensures SameOutcome(GrandPass(g, w, ls), GrandPass(g, v, ls))
    decreases |ls|
  {
    if ls != [] {
      VisitAllIgnoresMarks(g, w, v, ls[0].name, ls[0].files);
      var r, q := GrandTurn(g, w, ls[0]), GrandTurn(g, v, ls[0]);
      if r.Done? {
        GrandPassIgnoresMarks(g, r.w, q.w, ls[1..]);
      }
    }
  }

  /** All files that some listing holds. */
  ghost function Covered(ls: seq<Listing>): set<File> {
    set l, x | l in ls && x in l.files :: x
  }

  lemma CoveredSnoc(ls: seq<Listing>, l: Listing)
    ensures Covered(ls + [l]) == Covered(ls) + Elems(l.files)
  {
    assert forall x :: x in ls + [l] <==> x in ls || x == l;
  }

  ghost predicate AreClosures(g: Graph, ls: seq<Listing>) {
    forall l :: l in ls ==> IsClosure(g, l.name, l.files) && Elems(l.files) <= g.Keys
  }

  ghost predicate Needed(ls: seq<Listing>, f: File) {
    exists l :: l in ls && l.permitted && f in l.files
  }

  /** One listing more in the grand pass: no fatal, and just its files are added, if it is permitted. */
  lemma GrandTurnAdds(g: Graph, w: Walk, l: Listing)
    requires Closed(g) && Inv(g, w, []) && IsClosure(g, l.name, l.files) && Elems(l.files) <= g.Keys
    ensures var r := GrandTurn(g, w, l);
      && r.Done? && Inv(g, r.w, []) && w.out <= r.w.out
      && (forall x :: x in r.w.out <==> x in w.out || (l.permitted && x in l.files))
      && Reports(w, r.w) && w.marked - r.w.marked <= Elems(r.w.out)
  {
    VisitAllKeeps(g, w, [], l.name, l.files);
    VisitAllReaches(g, w, l.name, l.name, l.files);
    VisitAllReports(g, w, l.name, l.files);
    assert w.errors[|w.errors|..] == [];
    var r := VisitAll(g, w, l.name, l.files);
    if r.CycleAt? {
      OrderedIsAcyclic(g, l.files, r.at);
    } else {
      assert forall x :: x in l.files ==> x in Elems(l.files);
      assert forall x :: x in Elems(r.w.out) ==> x in r.w.out;
    }
  }

  /**
   * The grand list is the union of the permitted closures, once each and in include order;
   * the pass is never fatal and lifts no mark of a file outside that union.
   */
  lemma {:induction false} GrandPassIsUnion(g: Graph, w: Walk, ls: seq<Listing>)
    requires Closed(g) && Inv(g, w, []) && AreClosures(g, ls)
    ensures var r := GrandPass(g, w, ls);
      && r.Done? && Inv(g, r.w, []) && w.out <= r.w.out
      && (forall x :: x in r.w.out <==> x in w.out || Needed(ls, x))
      && Reports(w, r.w) && w.marked - r.w.marked <= Elems(r.w.out)
    decreases |ls|
  {
    if ls == [] {
      assert w.errors[|w.errors|..] == [];
    } else {
      assert ls[0] in ls;
      assert forall l :: l in ls <==> l == ls[0] || l in ls[1..] by { assert ls == [ls[0]] + ls[1..]; }
      GrandTurnAdds(g, w, ls[0]);
      var v := GrandTurn(g, w, ls[0]).w;
      GrandPassIsUnion(g, v, ls[1..]);
      ReportsTransitive(w, v, GrandPass(g, v, ls[1..]).w);
    }
  }

  /** The grand pass over the listings from position `i` on. */
  function GrandFrom(g: Graph, w: Walk, ls: seq<Listing>, i: nat): Outcome
    requires Closed(g) && i <= |ls| && forall l :: l in ls ==> Elems(l.files) <= g.Keys
  {
    GrandPass(g, w, ls[i..])
  }

  lemma GrandFromStep(g: Graph, w: Walk, ls: seq<Listing>, i: nat)
    requires Closed(g) && i < |ls| && forall l :: l in ls ==> Elems(l.files) <= g.Keys
    ensures Elems(ls[i].files) <= g.Keys
    ensures GrandFrom(g, w, ls, i) ==
      match GrandTurn(g, w, ls[i])
      case CycleAt(s) => CycleAt(s)
      case Done(v) => GrandFrom(g, v, ls, i + 1)
  {
    assert ls[i] in ls && ls[i..][1..] == ls[i + 1..];
  }

  lemma CountSnoc(ls: seq<Listing>, i: nat, f: File)
    requires i < |ls|
    ensures Count(ls[..i + 1], f) == Count(ls[..i], f) + if ls[i].permitted && f in ls[i].files then 1 else 0
  {
    assert ls[..i + 1][..i] == ls[..i];
  }

  lemma NothingReported(errors: seq<Report>)
    ensures Elems(Reported(errors)) == {} ==> errors == []
  {
    if errors != [] {
      assert Reported(errors)[|Reported(errors)| - 1] in Elems(Reported(errors));
    }
  }

  /** No file of the union is still marked, so the grand pass reports nothing. */
  lemma GrandPassIsSilent(g: Graph, marked: set<File>, errors: seq<Report>, ls: seq<Listing>)
    requires Closed(g) && AreClosures(g, ls)
    requires marked !! Covered(ls)
    ensures var r := GrandPass(g, Start(marked, errors), ls);
      r.Done? && r.w.errors == errors && r.w.marked == marked
  {
    var w := Start(marked, errors);
    StartInv(g, marked, errors);
    GrandPassIsUnion(g, w, ls);
    var v := GrandPass(g, w, ls).w;
    forall x | x in v.out ensures x in Covered(ls) {
      assert Needed(ls, x);
    }
    assert w.marked - v.marked <= Covered(ls);
    NothingReported(v.errors[|w.errors|..]);
  }

  /** What holds of the plan of a database whose outer files meet no cycle. */
  ghost predicate GoodPlan(g: Graph, p: Plan) {
    && Closed(g)
    && AreClosures(g, p.listings)
    && NoDup(p.grand) && Ordered(g, p.grand)
    && (forall x :: x in p.grand <==> Needed(p.listings, x))
    && (forall x :: x in p.grand ==> x in g)
  }
}
