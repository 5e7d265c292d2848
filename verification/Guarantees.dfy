/** What the plan of a database promises, in terms of the include graph it was read from. */
module Guarantees {
  import opened Seqs
  import opened IncludeGraph
  import opened IncludeWalk
  import opened WalkProofs
  import opened Closures
  import opened IncludeDb
  import opened Planning
  import opened Computing

  /** Outer file `c`, or a file it reaches, names `x` in an include. */
  ghost predicate NamedFrom(g: Graph, c: File, x: File) {
    exists f :: (f == c || Reaches(g, c, f)) && f in g && x in g[f]
  }

  lemma {:induction false} LastEdge(g: Graph, a: File, p: seq<File>)
    requires Walks(g, a, p) && p != []
    ensures NamedFrom(g, a, p[|p| - 1])
    decreases |p|
  {
    if |p| > 1 {
      LastEdge(g, p[0], p[1..]);
      var f :| (f == p[0] || Reaches(g, p[0], f)) && f in g && p[|p| - 1] in g[f];
      ReachesDirectly(g, a, p[0]);
      if f != p[0] {
        ReachesTransitive(g, a, p[0], f);
      }
      assert (f == a || Reaches(g, a, f)) && f in g && p[|p| - 1] in g[f];
    }
  }

  /** To be reached is to be named in some include that is reached. */
  lemma ReachedIsNamed(g: Graph, c: File, x: File)
    ensures Reaches(g, c, x) <==> NamedFrom(g, c, x)
  {
    if Reaches(g, c, x) {
      var p :| Walks(g, c, p) && p != [] && p[|p| - 1] == x;
      LastEdge(g, c, p);
    }
    if NamedFrom(g, c, x) {
      var f :| (f == c || Reaches(g, c, f)) && f in g && x in g[f];
      ReachesDirectly(g, f, x);
      if f != c {
        ReachesTransitive(g, c, f, x);
      }
    }
  }

  /** `x` is marked as the source of a platform-dependent include, and is included directly all the same. */
  ghost predicate Misused(d: Db, x: File) {
    x in d.marked && exists c :: c in d.outers && NamedFrom(d.includes, c, x)
  }

  lemma CoveredIsNamed(d: Db, x: File)
    requires Sound(d) && !Cyclic(d)
    ensures x in Covered(Listings(d)) <==> exists c :: c in d.outers && NamedFrom(d.includes, c, x)
  {
    ListingsAreClosures(d);
    if l :| l in Listings(d) && x in l.files {
      var k :| 0 <= k < |d.outers| && l == Listings(d)[k];
      ReachedIsNamed(d.includes, l.name, x);
      assert d.outers[k] in d.outers && d.outers[k] == l.name;
    }
    if c :| c in d.outers && NamedFrom(d.includes, c, x) {
      var k :| 0 <= k < |d.outers| && d.outers[k] == c;
      ReachedIsNamed(d.includes, c, x);
      assert Listings(d)[k] in Listings(d);
    }
  }

  lemma {:induction false} ReportedAt(errors: seq<Report>, i: nat)
    requires i < |errors|
    ensures |Reported(errors)| == |errors| && Reported(errors)[i] == errors[i].included
    decreases |errors|
  {
    if |errors| > 1 {
      ReportedAt(errors[..|errors| - 1], if i == |errors| - 1 then 0 else i);
    }
  }

  /** A misused file, and a file that includes it: an outer file, or one that an outer file reaches. */
  ghost predicate IsMisuse(d: Db, e: Report) {
    e.included in d.marked && IsDirectInclude(d, e)
  }

  /** Each misused file is reported once, and no other, with a file that includes it. */
  ghost predicate TellsMisuses(d: Db, errors: seq<Report>) {
    && (forall e :: e in errors ==> IsMisuse(d, e))
    && NoDup(Reported(errors))
    && (forall x :: x in Reported(errors) <==> Misused(d, x))
  }

  lemma MisusedAreReported(d: Db, news: seq<File>)
    requires Sound(d) && !Cyclic(d) && Elems(news) == d.marked * Covered(Listings(d))
    ensures forall x :: x in news <==> Misused(d, x)
  {
    forall x ensures x in news <==> Misused(d, x) {
      CoveredIsNamed(d, x);
      assert x in news <==> x in Elems(news);
    }
  }

  lemma ReportedIsMarked(d: Db, before: seq<Report>, after: seq<Report>, e: Report)
    requires before <= after && AreDirectIncludes(d, after, |before|) && e in after[|before|..]
    requires forall x :: x in Reported(after[|before|..]) ==> x in d.marked
    ensures IsMisuse(d, e)
  {
    var more := after[|before|..];
    var i :| 0 <= i < |more| && more[i] == e;
    ReportedAt(more, i);
    assert Reported(more)[i] in Reported(more) && e == after[|before| + i];
  }

  /** What computing adds to the reports. */
  lemma ReportsAreExact(d: Db, before: seq<Report>, after: seq<Report>)
    requires Sound(d) && !Cyclic(d)
    requires Reports(Start(d.marked, before), Start(d.marked - Covered(Listings(d)), after))
    requires AreDirectIncludes(d, after, |before|)
    ensures before <= after && TellsMisuses(d, after[|before|..])
  {
    var more := after[|before|..];
    assert d.marked - (d.marked - Covered(Listings(d))) == d.marked * Covered(Listings(d));
    MisusedAreReported(d, Reported(more));
    forall e | e in more ensures IsMisuse(d, e) {
      ReportedIsMarked(d, before, after, e);
    }
  }

  /** The outer files that may use the grand include file and need `f`. */
  ghost function Users(d: Db, f: File): set<nat>
    requires Sound(d)
  {
    set k: nat | k < |d.outers| && d.outers[k] !in d.refuses && Reaches(d.includes, d.outers[k], f)
  }

  /** A count is the number of outer files that may use the grand include file and reach the header. */
  lemma CountsAreExact(d: Db, f: File)
    requires Sound(d) && !Cyclic(d)
    ensures Count(Listings(d), f) == |Users(d, f)|
  {
    var ls := Listings(d);
    CountIsCardinality(ls, f);
    ListingsAreClosures(d);
    forall k | 0 <= k < |ls| ensures ls[k].permitted && f in ls[k].files <==> k in Users(d, f) {
      assert ls[k] in ls;
    }
    assert Counted(ls, f) == Users(d, f);
  }
}
