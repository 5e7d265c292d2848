/** Databases on which the incremental run leaves a file as it should not be. */
module Witnesses {
  import opened Seqs
  import opened IncludeGraph
  import opened IncludeWalk
  import opened WalkProofs
  import opened Closures
  import opened IncludeDb
  import opened IncludeDbProofs
  import opened Planning
  import opened Computing
  import opened Outputs
  import opened Incremental
  import opened Generation
  import opened Refinement
  import opened Compiling

  /** A search over files without includes adds those not listed yet. */
  lemma {:induction false} VisitLeaves(g: Graph, w: Walk, c: File, es: seq<File>)
    requires Closed(g) && (forall x :: x in es ==> x in g && g[x] == [])
    requires w.been == Elems(w.out) && w.onPath == {} && w.marked == {}
    ensures var out := AddAll(w.out, es);
      VisitAll(g, w, c, es) == Done(w.(been := Elems(out), out := out))
    decreases |es|
  {
    if es != [] {
      assert es[0] in es && Check(w, c, es[0]) == w;
      var entered := w.(been := w.been + {es[0]}, onPath := w.onPath + {es[0]});
      assert VisitAll(g, entered, es[0], []) == Done(entered);
      var v := Visit(g, w, es[0]).w;
      assert v == w.(been := Elems(AddIfAbsent(w.out, es[0])), out := AddIfAbsent(w.out, es[0]));
      VisitLeaves(g, v, c, es[1..]);
    }
  }

  /** The grand list over two listings. */
  function PooledFiles(la: Listing, lb: Listing): seq<File> {
    var first := if la.permitted then AddAll([], la.files) else [];
    if lb.permitted then AddAll(first, lb.files) else first
  }

  /** What `c` includes includes nothing. */
  ghost predicate OverLeaves(d: Db, c: File) {
    c in d.includes && forall x :: x in d.includes[c] ==> x in d.includes && d.includes[x] == []
  }

  lemma ListingOverLeaves(d: Db, c: File)
    requires Sound(d) && OverLeaves(d, c)
    ensures ListingOf(d, c) == Listing(c, c !in d.refuses, AddAll([], d.includes[c]))
  {
    VisitLeaves(d.includes, Start({}, []), c, d.includes[c]);
  }

  lemma TurnOverLeaves(d: Db, c: File, w: Walk)
    requires Sound(d) && OverLeaves(d, c)
    requires w.been == Elems(w.out) && w.onPath == {} && w.marked == {}
    ensures var l := ListingOf(d, c);
      var out := if l.permitted then AddAll(w.out, l.files) else w.out;
      GrandTurn(d.includes, w, l) == Done(w.(been := Elems(out), out := out))
  {
    var l := ListingOf(d, c);
    ListingOverLeaves(d, c);
    AddAllElems([], d.includes[c]);
    assert forall x :: x in l.files <==> x in Elems(l.files);
    assert forall x :: x in d.includes[c] <==> x in Elems(d.includes[c]);
    VisitLeaves(d.includes, w, c, l.files);
  }

  lemma PlanOverLeaves(d: Db, a: File, b: File, t: int)
    requires Sound(d) && OverLeaves(d, a) && OverLeaves(d, b) && d.outers == [a, b]
    ensures var p, la, lb := PlanOf(d, t), ListingOf(d, a), ListingOf(d, b);
      p.listings == [la, lb] && p.grand == PooledFiles(la, lb) && p.threshold == t
  {
    var g, w, la, lb := d.includes, Start({}, []), ListingOf(d, a), ListingOf(d, b);
    assert Listings(d) == [la, lb];
    TurnOverLeaves(d, a, w);
    var v := GrandTurn(g, w, la).w;
    TurnOverLeaves(d, b, v);
    GrandFromStep(g, w, [la, lb], 0);
    GrandFromStep(g, v, [la, lb], 1);
    assert [la, lb][0..] == [la, lb] && [la, lb][2..] == [];
  }

  lemma CountInTwo(la: Listing, lb: Listing, f: File)
    ensures Count([la, lb], f) ==
      (if la.permitted && f in la.files then 1 else 0) + if lb.permitted && f in lb.files then 1 else 0
  {
    assert [la, lb][..1] == [la] && [la][..0] == [];
    assert Count([la], f) == if la.permitted && f in la.files then 1 else 0;
  }

  // ----- the databases -----

  /** Two outer files over headers that include nothing. */
  ghost predicate OverHeaders(d: Db, a: File, b: File, ofA: seq<File>, ofB: seq<File>) {
    && Sound(d) && d.outers == [a, b] && OverLeaves(d, a) && OverLeaves(d, b)
    && d.includes[a] == ofA && d.includes[b] == ofB
  }

  lemma NoCycle(d: Db, a: File, b: File, ofA: seq<File>, ofB: seq<File>)
    requires OverHeaders(d, a, b, ofA, ofB)
    ensures !Cyclic(d)
  {
    forall c | c in d.outers ensures !MeetsCycle(d.includes, c) {
      VisitLeaves(d.includes, Start({}, []), c, d.includes[c]);
      ClosureCorrect(d.includes, c);
    }
  }

  /** Names for two outer files and two headers. */
  ghost predicate Cast(a: File, b: File, h: File, k: File) {
    && a != b && a != h && a != k && b != h && b != k && h != k
    && IsOuter(a) && IsOuter(b) && InclNameFits(a) && InclNameFits(b)
    && IsHeaderName(h) && IsHeaderName(k) && !IsDirective(h) && !IsDirective(k)
    && !StartsUpper(a) && !StartsUpper(b) && !StartsUpper(h) && !StartsUpper(k)
  }

  ghost predicate IsHeaderName(h: File) {
    HasSuffix(h, ".hh") && h != GI_NAME
  }

  /** For one, these; a.S might stand for a.cpp. */
  lemma CastExists()
    ensures Cast("a.cpp", "b.cpp", "h.hh", "k.hh")
    ensures Cast("a.S", "b.cpp", "h.hh", "k.hh") && !IsCplusplus("a.S")
  {
    assert "a.cpp"[1..] == ".cpp" && "b.cpp"[1..] == ".cpp" && "a.S"[1..] == ".S";
    assert "h.hh"[1..] == ".hh" && "k.hh"[1..] == ".hh";
    assert |"a.S"| != |"b.cpp"| && "a.cpp"[0] != "b.cpp"[0] && "h.hh"[0] != "k.hh"[0] && |GI_NAME| != 4;
    assert |NO_GRAND_INCLUDE| != 4 && |PLATFORM_DEPENDENT| != 4;
  }

  /** A header has no name that the rules of the makefile hold besides headers. */
  lemma HeaderIsItself(h: File, f: File)
    requires IsHeaderName(h)
    ensures h != InclName(f) && h != GI_COMPILED
  {
    assert h[|h| - 3..][2] == h[|h| - 1] && h[|h| - 3..][1] == h[|h| - 2] && h[|h| - 3..][0] == h[|h| - 3];
    assert InclName(f)[|InclName(f)| - 1] == 'l' && GI_COMPILED[|GI_COMPILED| - 2] == 'c';
  }

  lemma {:induction false} PairsHaveNoPds(es: seq<Entry>, f: File)
    requires forall e :: e in es ==> e.Pair?
    ensures LastPd(es, f) == None && Pds(es, f) == []
  {
    if es != [] {
      PairsHaveNoPds(es[..|es| - 1], f);
      assert es[|es| - 1] in es;
    }
  }

  /** The entries are pairs of the outer files `a` and `b` with headers. */
  ghost predicate Gathers(
    es: seq<Entry>, a: File, b: File, ofA: seq<File>, ofB: seq<File>, outers: seq<File>, refusing: set<File>)
  {
    && (forall e :: e in es ==> e.Pair?) && (forall f :: Pair(f, NO_GRAND_INCLUDE) in es <==> f in refusing)
    && !AnyBad(es) && Collect(es, OutersIn) == outers
    && Includees(es, a) == ofA && Includees(es, b) == ofB
    && (forall f :: f != a && f != b ==> Includees(es, f) == [])
  }

  lemma GathersNone(a: File, b: File)
    ensures Gathers([], a, b, [], [], [], {})
  {}

  lemma GathersOfA(es: seq<Entry>, a: File, b: File, ofA: seq<File>, ofB: seq<File>, outers: seq<File>, h: File)
    requires Gathers(es, a, b, ofA, ofB, outers, {}) && a != b
    requires IsOuter(a) && !IsDirective(h) && !StartsUpper(a) && !StartsUpper(h)
    ensures Gathers(es + [Pair(a, h)], a, b, ofA + [h], ofB, outers + [a], {})
  {
    CollectSnoc(es, Pair(a, h), OutersIn);
    forall f { PartsSnoc(es, Pair(a, h), f); }
  }

  lemma GathersOfB(es: seq<Entry>, a: File, b: File, ofA: seq<File>, ofB: seq<File>, outers: seq<File>, h: File)
    requires Gathers(es, a, b, ofA, ofB, outers, {}) && a != b
    requires IsOuter(b) && !IsDirective(h) && !StartsUpper(b) && !StartsUpper(h)
    ensures Gathers(es + [Pair(b, h)], a, b, ofA, ofB + [h], outers + [b], {})
  {
    CollectSnoc(es, Pair(b, h), OutersIn);
    forall f { PartsSnoc(es, Pair(b, h), f); }
  }

  lemma GathersRefusal(es: seq<Entry>, a: File, b: File, ofA: seq<File>, ofB: seq<File>, outers: seq<File>)
    requires Gathers(es, a, b, ofA, ofB, outers, {}) && IsOuter(a) && !StartsUpper(a)
    ensures Gathers(es + [Pair(a, NO_GRAND_INCLUDE)], a, b, ofA, ofB, outers + [a], {a})
  {
    CollectSnoc(es, Pair(a, NO_GRAND_INCLUDE), OutersIn);
    forall f { PartsSnoc(es, Pair(a, NO_GRAND_INCLUDE), f); }
  }

  lemma GatheredIsRead(
    es: seq<Entry>, a: File, b: File, ofA: seq<File>, ofB: seq<File>, outers: seq<File>, refusing: set<File>)
    requires Gathers(es, a, b, ofA, ofB, outers, refusing) && Distinct(outers) == [a, b] && a != b
    requires Distinct(ofA) == ofA && Distinct(ofB) == ofB
    requires a !in ofA && a !in ofB && b !in ofA && b !in ofB
    ensures Computable(es) && var d := Read(es).value;
      OverHeaders(d, a, b, ofA, ofB) && d.refuses == refusing
  {
    GatheredIncludes(es, a, b, ofA, ofB, outers, refusing);
    ArrangedOverHeaders(Read(es).value, a, b, ofA, ofB);
  }

  /** The includes of `d` are those of `a` and `b`. */
  ghost predicate Arranged(d: Db, a: File, b: File, ofA: seq<File>, ofB: seq<File>) {
    && (a in d.includes ==> d.includes[a] == ofA) && (b in d.includes ==> d.includes[b] == ofB)
    && forall f :: f in d.includes && f != a && f != b ==> d.includes[f] == []
  }

  lemma ArrangedOverHeaders(d: Db, a: File, b: File, ofA: seq<File>, ofB: seq<File>)
    requires Sound(d) && d.outers == [a, b] && Arranged(d, a, b, ofA, ofB)
    requires a !in ofA && a !in ofB && b !in ofA && b !in ofB
    ensures OverHeaders(d, a, b, ofA, ofB) && !Cyclic(d)
  {
    assert d.outers[0] in d.outers && d.outers[1] in d.outers;
    assert OverLeaves(d, a);
    assert OverLeaves(d, b);
    NoCycle(d, a, b, ofA, ofB);
  }

  lemma GatheredIncludes(
    es: seq<Entry>, a: File, b: File, ofA: seq<File>, ofB: seq<File>, outers: seq<File>, refusing: set<File>)
    requires Gathers(es, a, b, ofA, ofB, outers, refusing)
    ensures Read(es).Some? && var d := Read(es).value;
      && Sound(d) && d.outers == Distinct(outers) && d.refuses == refusing
      && Arranged(d, a, b, Distinct(ofA), Distinct(ofB))
  {
    ReadDescribes(es);
    ReadIsSound(es);
  }

  lemma DistinctOne(x: File)
    ensures Distinct([x]) == [x]
  {
    assert [x][..0] == [];
  }

  lemma DistinctTwo(x: File, y: File)
    requires x != y
    ensures Distinct([x, y]) == [x, y]
  {
    DistinctOne(x);
    DistinctSnoc([x], y);
    assert [x] + [y] == [x, y];
  }

  lemma DistinctMore(s: seq<File>, x: File)
    requires x in Distinct(s)
    ensures Distinct(s + [x]) == Distinct(s)
  {
    DistinctSnoc(s, x);
  }

  function EntriesOfOne(a: File, b: File, h: File): seq<Entry> { [Pair(a, h)] + [Pair(b, h)] }

  function EntriesOfTwo(a: File, b: File, h: File, k: File): seq<Entry> { [Pair(a, h)] + [Pair(a, k)] + [Pair(b, k)] }

  lemma GathersFirst(a: File, b: File, h: File, k: File)
    requires Cast(a, b, h, k)
    ensures Gathers([Pair(a, h)], a, b, [h], [], [a], {})
  {
    GathersNone(a, b);
    GathersOfA([], a, b, [], [], [], h);
    assert [] + [Pair(a, h)] == [Pair(a, h)];
    assert [] + [h] == [h] && [] + [a] == [a];
  }

  lemma OneIsRead(a: File, b: File, h: File, k: File)
    requires Cast(a, b, h, k)
    ensures Gathers(EntriesOfOne(a, b, h), a, b, [h], [] + [h], [a] + [b], {})
  {
    GathersFirst(a, b, h, k);
    GathersOfB([Pair(a, h)], a, b, [h], [], [a], h);
  }

  lemma TwoAreRead(a: File, b: File, h: File, k: File)
    requires Cast(a, b, h, k)
    ensures Gathers(EntriesOfTwo(a, b, h, k), a, b, [h, k], [k], [a] + [a] + [b], {})
    ensures Gathers(EntriesOfTwo(a, b, h, k) + [Pair(b, h)], a, b, [h, k], [k, h], [a] + [a] + [b] + [b], {})
  {
    GathersFirst(a, b, h, k);
    GathersOfA([Pair(a, h)], a, b, [h], [], [a], k);
    GathersOfB([Pair(a, h)] + [Pair(a, k)], a, b, [h, k], [], [a] + [a], k);
    GathersOfB(EntriesOfTwo(a, b, h, k), a, b, [h, k], [k], [a] + [a] + [b], h);
  }

  // ----- the grand include file -----

  /**
   * The grand include file goes stale: with threshold 2, `b` starts to include `h`, which `a` includes
   * already. The grand include list stays as it was, so the run is short, but `h` crossed the threshold.
   */
  lemma {:induction false} GrandFileGoesStale(
    a: File, b: File, h: File, k: File, disk: Disk, oldEs: seq<Entry>, newEs: seq<Entry>)
    requires Cast(a, b, h, k) && oldEs == EntriesOfTwo(a, b, h, k) && newEs == oldEs + [Pair(b, h)]
    ensures LeavesGrandStale(disk, oldEs, newEs, 2)
  {
    PlanBefore(a, b, h, k);
    PlanAfter(a, b, h, k);
    HeaderCrosses(a, b, h, k, PlanFor(oldEs, 2), PlanFor(newEs, 2));
    RelativeRefinesGrand(disk, oldEs, newEs, 2);
  }

  /** No run is fatal, and after the second the grand include file is not the one of the new database. */
  ghost predicate LeavesGrandStale(disk: Disk, oldEs: seq<Entry>, newEs: seq<Entry>, threshold: int) {
    && Writable(oldEs, threshold) && Writable(newEs, threshold)
    && !HoldsGrand(AfterRelative(AfterAbsolute(disk, oldEs, threshold), oldEs, newEs, threshold),
                   PlanFor(newEs, threshold))
  }

  lemma OutersOfTwo(a: File, b: File)
    requires a != b
    ensures Distinct([a] + [a] + [b]) == [a, b] && Distinct([a] + [a] + [b] + [b]) == [a, b]
  {
    DistinctOne(a);
    DistinctMore([a], a);
    DistinctSnoc([a] + [a], b);
    assert [a] + [b] == [a, b];
    DistinctMore([a] + [a] + [b], b);
  }

  lemma PlanBefore(a: File, b: File, h: File, k: File)
    requires Cast(a, b, h, k)
    ensures var es := EntriesOfTwo(a, b, h, k);
      Writable(es, 2) && IsPlanOfTwo(PlanFor(es, 2), a, b, h, k, [k]) && forall e :: e in es ==> e.Pair?
  {
    TwoAreRead(a, b, h, k);
    OutersOfTwo(a, b);
    DistinctOne(k);
    PlanOfTwo(a, b, h, k, EntriesOfTwo(a, b, h, k), [k], [a] + [a] + [b]);
  }

  lemma PlanAfter(a: File, b: File, h: File, k: File)
    requires Cast(a, b, h, k)
    ensures var es := EntriesOfTwo(a, b, h, k) + [Pair(b, h)];
      Writable(es, 2) && IsPlanOfTwo(PlanFor(es, 2), a, b, h, k, [k, h]) && forall e :: e in es ==> e.Pair?
  {
    TwoAreRead(a, b, h, k);
    OutersOfTwo(a, b);
    DistinctTwo(k, h);
    PlanOfTwo(a, b, h, k, EntriesOfTwo(a, b, h, k) + [Pair(b, h)], [k, h], [a] + [a] + [b] + [b]);
  }

  ghost predicate IsPlanOfTwo(p: Plan, a: File, b: File, h: File, k: File, ofB: seq<File>) {
    && p.listings == [Listing(a, true, [h, k]), Listing(b, true, ofB)]
    && p.grand == [h, k] && p.threshold == 2
  }

  lemma {:induction false} PlanOfTwo(
    a: File, b: File, h: File, k: File, es: seq<Entry>, ofB: seq<File>, outers: seq<File>)
    requires Cast(a, b, h, k) && (ofB == [k] || ofB == [k, h]) && Distinct(outers) == [a, b]
    requires Distinct(ofB) == ofB && Gathers(es, a, b, [h, k], ofB, outers, {})
    ensures Writable(es, 2) && IsPlanOfTwo(PlanFor(es, 2), a, b, h, k, ofB)
  {
    DistinctTwo(h, k);
    GatheredIsRead(es, a, b, [h, k], ofB, outers, {});
    PlanOverTwo(Read(es).value, a, b, h, k, ofB);
  }

  lemma PlanOverTwo(d: Db, a: File, b: File, h: File, k: File, ofB: seq<File>)
    requires Cast(a, b, h, k) && (ofB == [k] || ofB == [k, h])
    requires OverHeaders(d, a, b, [h, k], ofB) && d.refuses == {}
    ensures IsPlanOfTwo(PlanOf(d, 2), a, b, h, k, ofB)
  {
    PlanOverLeaves(d, a, b, 2);
    ListingOverLeaves(d, a);
    ListingOverLeaves(d, b);
    AddTwo(h, k);
    AddTwo(k, h);
    AddAllShort([h, k], k, h);
  }

  lemma AddTwo(x: File, y: File)
    requires x != y
    ensures AddAll([], [x]) == [x] && AddAll([], [x, y]) == [x, y]
  {
    AddAllShort([], x, y);
    assert AddIfAbsent<File>([], x) == [x] && AddIfAbsent([x], y) == [x, y];
  }

  lemma HeaderCrosses(a: File, b: File, h: File, k: File, q: Plan, p: Plan)
    requires Cast(a, b, h, k) && IsPlanOfTwo(q, a, b, h, k, [k]) && IsPlanOfTwo(p, a, b, h, k, [k, h])
    ensures ShortRun(p, q) && Crossed(p, q) && NoDup(p.grand)
  {
    CountInTwo(p.listings[0], p.listings[1], h);
    CountInTwo(q.listings[0], q.listings[1], h);
    assert Qualifies(p, h) && !Qualifies(q, h);
    assert h in p.grand;
  }

  lemma AddAllShort(s: seq<File>, x: File, y: File)
    ensures AddAll(s, [x]) == AddIfAbsent(s, x)
    ensures AddAll(s, [x, y]) == AddIfAbsent(AddIfAbsent(s, x), y)
  {
    assert [x, y][1..] == [y] && [y][1..] == [] && [x][1..] == [];
    assert AddAll(AddIfAbsent(s, x), [y]) == AddIfAbsent(AddIfAbsent(s, x), y);
  }

  // ----- the include file of one outer file -----

  /**
   * An individual include file goes stale: `a` no longer permits the grand include file, and no header
   * reaches the threshold, so the comparison sees no difference and the old file stays, with its include
   * of the grand include file.
   */
  lemma {:induction false} IncludeFileGoesStale(
    a: File, b: File, h: File, k: File, disk: Disk, oldEs: seq<Entry>, newEs: seq<Entry>)
    requires Cast(a, b, h, k) && oldEs == EntriesOfOne(a, b, h) && newEs == oldEs + [Pair(a, NO_GRAND_INCLUDE)]
    ensures LeavesIncludeStale(disk, oldEs, newEs, 100, 0)
  {
    PlansOfOne(a, b, h, k);
    UnseenFlip(a, b, h, PlanFor(oldEs, 100), PlanFor(newEs, 100));
    StaleUnlessFlipped(PlanFor(newEs, 100), PlanFor(oldEs, 100), 0);
    PairsHaveNoPds(oldEs + newEs, a);
    RelativeRefinesOne(disk, oldEs, newEs, 100, 0);
  }

  /** No run is fatal, and after the second the include file of outer file `i` is not the one of the new database. */
  ghost predicate LeavesIncludeStale(disk: Disk, oldEs: seq<Entry>, newEs: seq<Entry>, threshold: int, i: nat) {
    && Writable(oldEs, threshold) && Writable(newEs, threshold) && i < |PlanFor(newEs, threshold).listings|
    && !HoldsListing(AfterRelative(AfterAbsolute(disk, oldEs, threshold), oldEs, newEs, threshold),
                     PlanFor(newEs, threshold), PlanFor(newEs, threshold).listings[i])
  }

  lemma PlansOfOne(a: File, b: File, h: File, k: File)
    requires Cast(a, b, h, k)
    ensures var oldEs, newEs := EntriesOfOne(a, b, h), EntriesOfOne(a, b, h) + [Pair(a, NO_GRAND_INCLUDE)];
      && Writable(oldEs, 100) && Writable(newEs, 100) && (forall e :: e in oldEs + newEs ==> e.Pair?)
      && IsPlanOfOne(PlanFor(oldEs, 100), a, b, h, {}) && IsPlanOfOne(PlanFor(newEs, 100), a, b, h, {a})
  {
    var oldEs, newEs := EntriesOfOne(a, b, h), EntriesOfOne(a, b, h) + [Pair(a, NO_GRAND_INCLUDE)];
    OneIsRead(a, b, h, k);
    assert [] + [h] == [h] && [a] + [b] == [a, b];
    GathersRefusal(oldEs, a, b, [h], [h], [a, b]);
    DistinctTwo(a, b);
    DistinctMore([a, b], a);
    PlanOfOne(a, b, h, k, oldEs, [a, b], {});
    PlanOfOne(a, b, h, k, newEs, [a, b] + [a], {a});
  }

  ghost predicate IsPlanOfOne(p: Plan, a: File, b: File, h: File, refusing: set<File>) {
    && p.listings == [Listing(a, a !in refusing, [h]), Listing(b, true, [h])]
    && p.grand == [h] && p.threshold == 100
  }

  lemma {:induction false} PlanOfOne(
    a: File, b: File, h: File, k: File, es: seq<Entry>, outers: seq<File>, refusing: set<File>)
    requires Cast(a, b, h, k) && Distinct(outers) == [a, b]
    requires Gathers(es, a, b, [h], [h], outers, refusing) && refusing <= {a}
    ensures Writable(es, 100) && IsPlanOfOne(PlanFor(es, 100), a, b, h, refusing)
  {
    DistinctOne(h);
    GatheredIsRead(es, a, b, [h], [h], outers, refusing);
    var d := Read(es).value;
    PlanOverLeaves(d, a, b, 100);
    ListingOverLeaves(d, a);
    ListingOverLeaves(d, b);
    AddTwo(h, k);
    AddAllShort([h], h, h);
  }

  lemma {:induction false} UnseenFlip(a: File, b: File, h: File, q: Plan, p: Plan)
    requires IsPlanOfOne(q, a, b, h, {}) && IsPlanOfOne(p, a, b, h, {a})
    ensures ShortRun(p, q) && FlipUnseen(p, q, 0)
  {
    CountInTwo(p.listings[0], p.listings[1], h);
    CountInTwo(q.listings[0], q.listings[1], h);
  }

  // ----- the makefile -----

  /** In the plan of two headers with threshold 2, `k` goes to the grand include file and `h` stays. */
  lemma WhatIsMoved(a: File, b: File, h: File, k: File, p: Plan)
    requires Cast(a, b, h, k) && IsPlanOfTwo(p, a, b, h, k, [k])
    ensures Qualifies(p, k) && !Qualifies(p, h) && k in GrandFiles(p)
  {
    CountInTwo(p.listings[0], p.listings[1], h);
    CountInTwo(p.listings[0], p.listings[1], k);
    FilterElems(p.grand, ForGrand(p));
  }

  /** No rule for an object file names `k`. */
  lemma MovedIsForgotten(a: File, b: File, h: File, k: File, p: Plan, r: MakeEntry)
    requires Cast(a, b, h, k) && IsPlanOfTwo(p, a, b, h, k, [k]) && forall f :: PdsOf(p, f) == []
    requires r in MakeEntries(p, 0) && r.Rule?
    ensures k !in r.prerequisites
  {
    ObjRulesAre(p, p.listings, r);
    var l :| l in p.listings && r == ObjRule(p, l);
    WhatIsMoved(a, b, h, k, p);
    HeaderIsItself(k, l.name);
    MovedIsNotNamed(p, l, k);
  }

  lemma PairsGiveNoPds(es: seq<Entry>, threshold: int, f: File)
    requires Computable(es) && forall e :: e in es ==> e.Pair?
    ensures PdsOf(PlanFor(es, threshold), f) == []
  {
    ReadDescribes(es);
    PairsHaveNoPds(es, f);
  }

  /**
   * The makefile forgets a dependency: run again with the same database, nothing is to be done, and the
   * makefile written then names `k`, which both outer files need, nowhere as a prerequisite.
   */
  lemma {:induction false} MakefileForgets(a: File, b: File, h: File, k: File, disk: Disk, es: seq<Entry>)
    requires Cast(a, b, h, k) && es == EntriesOfTwo(a, b, h, k)
    ensures Forgets(disk, es, 2, k)
  {
    PlanBefore(a, b, h, k);
    AgainIsShort(disk, es, 2);
    forall f ensures PdsOf(PlanFor(es, 2), f) == [] { PairsGiveNoPds(es, 2, f); }
    RulesForget(a, b, h, k, PlanFor(es, 2));
  }

  /** No run is fatal, and the second takes `x`, which every outer file needs, out of the makefile. */
  ghost predicate Forgets(disk: Disk, es: seq<Entry>, threshold: int, x: File) {
    && Writable(es, threshold)
    && var p, before := PlanFor(es, threshold), AfterAbsolute(disk, es, threshold);
       var made, remade := EntriesAt(before), EntriesAt(AfterRelative(before, es, es, threshold));
       && (forall l :: l in p.listings ==> x in l.files)
       && Direct(made, GI_COMPILED, x) && !Direct(remade, GI_COMPILED, x)
       && forall r :: r in remade && r.Rule? ==> x !in r.prerequisites
  }

  lemma RulesForget(a: File, b: File, h: File, k: File, p: Plan)
    requires Cast(a, b, h, k) && IsPlanOfTwo(p, a, b, h, k, [k]) && forall f :: PdsOf(p, f) == []
    ensures forall l :: l in p.listings ==> k in l.files
    ensures Direct(MakeEntries(p, |GrandFiles(p)|), GI_COMPILED, k) && !Direct(MakeEntries(p, 0), GI_COMPILED, k)
    ensures forall r :: r in MakeEntries(p, 0) && r.Rule? ==> k !in r.prerequisites
  {
    WhatIsMoved(a, b, h, k, p);
    WithPdsElems(p, GrandFiles(p), k);
    CompiledDepends(p, |GrandFiles(p)|, k);
    CompiledDepends(p, 0, k);
    forall r | r in MakeEntries(p, 0) && r.Rule? ensures k !in r.prerequisites {
      MovedIsForgotten(a, b, h, k, p, r);
    }
  }

  // ----- outer files that are not C++ -----

  /** In the plan, `a` sees `h` alone, and not `k`, which went to the grand include file. */
  lemma SeenOfTwo(a: File, b: File, h: File, k: File, p: Plan)
    requires Cast(a, b, h, k) && !IsCplusplus(a) && IsPlanOfTwo(p, a, b, h, k, [k])
    ensures k in p.listings[0].files && SeenBy(p, p.listings[0]) == [h]
  {
    WhatIsMoved(a, b, h, k, p);
    KeptOfTwo(p, p.listings[0], h, k);
  }

  /** A file that is not C++ loses a header: `a`, say a.S, is compiled without `k`, which it needs. */
  lemma {:induction false} AssemblerLosesHeader(a: File, b: File, h: File, k: File, disk: Disk, es: seq<Entry>)
    requires Cast(a, b, h, k) && !IsCplusplus(a) && es == EntriesOfTwo(a, b, h, k)
    ensures Loses(disk, es, 2, 0, k)
  {
    PlanBefore(a, b, h, k);
    SeenOfTwo(a, b, h, k, PlanFor(es, 2));
    RunShowsClosure(disk, es, 2, 0);
  }

  /** The run is not fatal, and outer file `i` does not get `x`, which it needs, by the files written. */
  ghost predicate Loses(disk: Disk, es: seq<Entry>, threshold: int, i: nat, x: File) {
    && Writable(es, threshold) && i < |PlanFor(es, threshold).listings|
    && var l := PlanFor(es, threshold).listings[i];
       x in l.files && x !in Compiled(AfterAbsolute(disk, es, threshold), l.name)
  }

  lemma KeptOfTwo(p: Plan, l: Listing, h: File, k: File)
    requires l.files == [h, k] && l.permitted && Qualifies(p, k) && !Qualifies(p, h)
    ensures [] + Kept(p, l) == [h]
  {
    var keep := NotInGrand(p, l.permitted);
    assert [h, k][..1] == [h] && [h][..0] == [];
    assert Filter([h], keep) == [h];
    assert [h] + [] == [h];
  }
}
