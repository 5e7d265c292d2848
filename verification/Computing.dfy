/** The plan of a database. */
module Computing {
  import opened Seqs
  import opened IncludeGraph
  import opened IncludeWalk
  import opened WalkProofs
  import opened Closures
  import opened IncludeDb
  import opened Planning

  function ListingOf(d: Db, c: File): (l: Listing)
    requires Closed(d.includes) && c in d.includes
    ensures Elems(l.files) <= d.includes.Keys
  {
    ClosureCorrect(d.includes, c);
    match ClosureOf(d.includes, c)
    case None => Listing(c, c !in d.refuses, [])
    case Some(files) => Listing(c, c !in d.refuses, files)
  }

  /** One listing per outer file, in their order. */
  function Listings(d: Db): (ls: seq<Listing>)
    requires Sound(d)
    ensures |ls| == |d.outers|
    ensures forall k :: 0 <= k < |ls| ==> ls[k] == ListingOf(d, d.outers[k])
  {
    seq(|d.outers|, k requires 0 <= k < |d.outers| => ListingOf(d, d.outers[k]))
  }

  function PlanOf(d: Db, threshold: int): Plan
    requires Sound(d)
  {
    var ls := Listings(d);
    match GrandPass(d.includes, Start({}, []), ls)
    case CycleAt(_) => Plan(ls, [], threshold, d.pds)
    case Done(v) => Plan(ls, v.out, threshold, d.pds)
  }

  /** Some outer file is in reach of an include cycle. */
  ghost predicate Cyclic(d: Db)
    requires Sound(d)
  {
    exists c :: c in d.outers && MeetsCycle(d.includes, c)
  }

  ghost predicate CyclicUpTo(d: Db, n: nat)
    requires Sound(d) && n <= |d.outers|
  {
    exists k :: 0 <= k < n && MeetsCycle(d.includes, d.outers[k])
  }

  lemma CyclicStep(d: Db, n: nat)
    requires Sound(d) && n < |d.outers|
    ensures d.outers[n] in d.includes
    ensures CyclicUpTo(d, n + 1) <==> CyclicUpTo(d, n) || ClosureOf(d.includes, d.outers[n]) == None
    ensures CyclicUpTo(d, n + 1) ==> Cyclic(d)
  {
    assert d.outers[n] in d.outers;
    ClosureCorrect(d.includes, d.outers[n]);
    if CyclicUpTo(d, n + 1) {
      var k :| 0 <= k < n + 1 && MeetsCycle(d.includes, d.outers[k]);
      assert d.outers[k] in d.outers;
    }
  }

  /** `e` names an include that there is, by an outer file or by a file that one reaches. */
  ghost predicate IsDirectInclude(d: Db, e: Report) {
    exists c :: c in d.outers && IsInclude(d.includes, c, e)
  }

  /** The reports from position `n` on are such includes. */
  ghost predicate AreDirectIncludes(d: Db, errors: seq<Report>, n: nat) {
    forall i :: n <= i < |errors| ==> IsDirectInclude(d, errors[i])
  }

  /** So are they after one outer file more. */
  lemma DirectIncludesMore(d: Db, c: File, errors: seq<Report>, n: nat, more: seq<Report>)
    requires c in d.outers && errors <= more
    requires AreDirectIncludes(d, errors, n) && AreIncludes(d.includes, c, more, |errors|)
    ensures AreDirectIncludes(d, more, n)
  {
    forall i | n <= i < |more| ensures IsDirectInclude(d, more[i]) {
      if i < |errors| {
        assert more[i] == errors[i];
      } else {
        assert IsInclude(d.includes, c, more[i]);
      }
    }
  }

  lemma ListingsAreClosures(d: Db)
    requires Sound(d) && !Cyclic(d)
    ensures AreClosures(d.includes, Listings(d))
  {
    forall l | l in Listings(d) ensures IsClosure(d.includes, l.name, l.files) && Elems(l.files) <= d.includes.Keys {
      var k :| 0 <= k < |d.outers| && l == Listings(d)[k];
      assert d.outers[k] in d.outers;
      ClosureCorrect(d.includes, d.outers[k]);
    }
  }

  /** Without cycles, the plan lists each outer file's closure and, as grand list, the union of the permitted ones. */
  lemma PlanIsGood(d: Db, threshold: int)
    requires Sound(d) && !Cyclic(d)
    ensures GoodPlan(d.includes, PlanOf(d, threshold))
  {
    ListingsAreClosures(d);
    StartInv(d.includes, {}, []);
    GrandPassIsUnion(d.includes, Start({}, []), Listings(d));
  }

  /** The grand pass after the closures were made: never fatal, silent, and it fills the grand list of the plan. */
  lemma GrandPassOfListings(d: Db, marked: set<File>, errors: seq<Report>, threshold: int)
    requires Sound(d) && !Cyclic(d) && marked !! Covered(Listings(d))
    ensures var r := GrandPass(d.includes, Start(marked, errors), Listings(d));
      && r.Done? && r.w.out == PlanOf(d, threshold).grand
      && r.w.errors == errors && r.w.traced == {}
    ensures forall l :: l in Listings(d) ==> NoDup(l.files) && Elems(l.files) <= d.includes.Keys
    ensures var p := PlanOf(d, threshold);
      p.listings == Listings(d) && p.pds == d.pds && p.threshold == threshold
  {
    var ls := Listings(d);
    ListingsAreClosures(d);
    GrandPassIsSilent(d.includes, marked, errors, ls);
    GrandPassIgnoresMarks(d.includes, Start(marked, errors), Start({}, []), ls);
    StartInv(d.includes, {}, []);
    GrandPassIsUnion(d.includes, Start({}, []), ls);
  }
}
