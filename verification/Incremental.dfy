/** The incremental run against the full one: which files it leaves right, and exactly when it does not. */
module Incremental {
  import opened Seqs
  import opened IncludeGraph
  import opened IncludeDb
  import opened Planning
  import opened Outputs

  ghost predicate DistinctNames(ls: seq<Listing>) {
    forall i, j :: 0 <= i < j < |ls| ==> ls[i].name != ls[j].name
  }

  predicate SameNames(a: seq<Listing>, b: seq<Listing>) {
    |a| == |b| && forall k :: 0 <= k < |a| ==> a[k].name == b[k].name
  }

  /** The outer files and the grand include list are as before, so only changed files are rewritten. */
  predicate ShortRun(p: Plan, q: Plan) {
    SameNames(p.listings, q.listings) && p.grand == q.grand
  }

  /** The comparison of two listings: same files, left to the grand include file alike. */
  predicate Unchanged(p: Plan, l: Listing, q: Plan, m: Listing) {
    && l.files == m.files
    && forall k :: 0 <= k < |l.files| ==> InGrand(p, l.files[k], l.permitted) == InGrand(q, l.files[k], m.permitted)
  }

  function PutChanged(disk: Disk, p: Plan, q: Plan, n: nat): Disk
    requires n <= |p.listings| == |q.listings|
  {
    if n == 0 then disk else PutIfChanged(PutChanged(disk, p, q, n - 1), p, p.listings[n - 1], q, q.listings[n - 1])
  }

  function PutIfChanged(disk: Disk, p: Plan, l: Listing, q: Plan, m: Listing): Disk {
    if Unchanged(p, l, q, m) then disk else PutListing(disk, p, l)
  }

  /** The disk after the incremental run; on the short run nothing was counted as precompiled. */
  function PutDiffs(disk: Disk, p: Plan, q: Plan): Disk {
    if ShortRun(p, q)
    then PutChanged(disk, p, q, |p.listings|)[GD_PATH := Makefile(MakeEntries(p, 0))]
    else PutAll(disk, p)
  }

  // ----- paths and lines -----

  lemma InclPathsDiffer(f: File, h: File)
    ensures f != h ==> InclPath(f) != InclPath(h)
    ensures InclPath(f) != GI_PATH && InclPath(f) != GD_PATH
  {
    assert InclPath(f)[7..7 + |f|] == f && InclPath(h)[7..7 + |h|] == h;
    assert |InclPath(f)| == |f| + 12 && |InclPath(h)| == |h| + 12;
    assert InclPath(f)[|InclPath(f)| - 1] == 'l';
    assert GI_PATH[|GI_PATH| - 1] == 'h' && GD_PATH[|GD_PATH| - 1] == 'h';
  }

  lemma IncludeLineInjective(a: string, b: string)
    ensures IncludeLine(a) == IncludeLine(b) ==> a == b
  {
    assert IncludeLine(a)[11..11 + |a|] == a && IncludeLine(b)[11..11 + |b|] == b;
    assert |IncludeLine(a)| == |a| + 12 && |IncludeLine(b)| == |b| + 12;
  }

  lemma {:induction false} IncludeLinesInjective(a: seq<File>, b: seq<File>)
    ensures |IncludeLines(a)| == |a|
    ensures IncludeLines(a) == IncludeLines(b) <==> a == b
    decreases |a| + |b|
  {
    if a != [] {
      IncludeLinesInjective(a[..|a| - 1], []);
    }
    if b != [] {
      IncludeLinesInjective(b[..|b| - 1], []);
    }
    if a != [] && b != [] {
      IncludeLinesInjective(a[..|a| - 1], b[..|b| - 1]);
      IncludeLineInjective(a[|a| - 1], b[|b| - 1]);
      assert a == a[..|a| - 1] + [a[|a| - 1]] && b == b[..|b| - 1] + [b[|b| - 1]];
      var x, y := IncludeLines(a), IncludeLines(b);
      if x == y {
        assert x[..|x| - 1] == y[..|y| - 1] && x[|x| - 1] == y[|y| - 1];
        assert x[..|x| - 1] == IncludeLines(a[..|a| - 1]) && y[..|y| - 1] == IncludeLines(b[..|b| - 1]);
      }
    }
  }

  // ----- what ends up at each path -----

  /** Nothing changes at the path `path`. */
  ghost predicate Same(before: Disk, after: Disk, path: string) {
    (path in after <==> path in before) && (path in after ==> after[path] == before[path])
  }

  lemma PutOther(disk: Disk, p: Plan, l: Listing, f: File)
    requires f != l.name
    ensures Same(disk, PutListing(disk, p, l), InclPath(f))
  {
    InclPathsDiffer(f, l.name);
  }

  lemma PutAway(disk: Disk, p: Plan, l: Listing, path: string)
    requires path != InclPath(l.name)
    ensures Same(disk, PutListing(disk, p, l), path)
  {}

  lemma {:induction false} PutListingsAt(disk: Disk, p: Plan, n: nat, k: nat)
    requires n <= |p.listings| && DistinctNames(p.listings) && k < n
    ensures HoldsListing(PutListings(disk, p, n), p, p.listings[k])
  {
    if k != n - 1 {
      PutListingsAt(disk, p, n - 1, k);
      PutOther(PutListings(disk, p, n - 1), p, p.listings[n - 1], p.listings[k].name);
    }
  }

  lemma {:induction false} PutChangedAt(disk: Disk, p: Plan, q: Plan, n: nat, k: nat)
    requires n <= |p.listings| == |q.listings| && DistinctNames(p.listings) && k < |p.listings|
    ensures var d, l := PutChanged(disk, p, q, n), p.listings[k];
      if k < n && !Unchanged(p, l, q, q.listings[k]) then HoldsListing(d, p, l)
      else Same(disk, d, InclPath(l.name))
  {
    if n > 0 {
      PutChangedAt(disk, p, q, n - 1, k);
      if k != n - 1 {
        PutOther(PutChanged(disk, p, q, n - 1), p, p.listings[n - 1], p.listings[k].name);
      }
    }
  }

  lemma {:induction false} PutChangedElsewhere(disk: Disk, p: Plan, q: Plan, n: nat, path: string)
    requires n <= |p.listings| == |q.listings|
    requires forall l :: l in p.listings ==> path != InclPath(l.name)
    ensures Same(disk, PutChanged(disk, p, q, n), path)
  {
    if n > 0 {
      PutChangedElsewhere(disk, p, q, n - 1, path);
      assert p.listings[n - 1] in p.listings;
    }
  }

  lemma PutAllShared(disk: Disk, p: Plan)
    ensures HoldsGrand(PutAll(disk, p), p) && HoldsMakefile(PutAll(disk, p), p)
  {
    InclPathsDiffer("", "");
    assert GI_PATH != GD_PATH by { assert GI_PATH[0] != GD_PATH[0]; }
  }

  lemma PutAllListing(disk: Disk, p: Plan, k: nat)
    requires DistinctNames(p.listings) && k < |p.listings|
    ensures HoldsListing(PutAll(disk, p), p, p.listings[k])
  {
    PutListingsAt(disk, p, |p.listings|, k);
    InclPathsDiffer(p.listings[k].name, "");
  }

  /** The disk holds the include files and the grand include file that a full run writes for `q`. */
  ghost predicate HoldsFiles(disk: Disk, q: Plan) {
    && (forall k :: 0 <= k < |q.listings| ==> HoldsListing(disk, q, q.listings[k]))
    && HoldsGrand(disk, q)
  }

  ghost predicate HoldsGrand(disk: Disk, q: Plan) {
    GI_PATH in disk && disk[GI_PATH] == GrandContent(q)
  }

  ghost predicate HoldsMakefile(disk: Disk, q: Plan) {
    GD_PATH in disk && disk[GD_PATH] == Makefile(MakeEntries(q, |GrandFiles(q)|))
  }

  ghost predicate HoldsListing(disk: Disk, q: Plan, m: Listing) {
    InclPath(m.name) in disk && disk[InclPath(m.name)] == InclContent(q, m)
  }

  lemma PutAllHolds(disk: Disk, q: Plan)
    requires DistinctNames(q.listings)
    ensures HoldsFiles(PutAll(disk, q), q)
  {
    PutAllShared(disk, q);
    forall k | 0 <= k < |q.listings| ensures HoldsListing(PutAll(disk, q), q, q.listings[k]) {
      PutAllListing(disk, q, k);
    }
  }

  /** Reading a database leaves these files alone if no platform-dependent include is named like an outer file. */
  lemma {:induction false} ReadingKeepsFiles(disk: Disk, q: Plan, es: seq<Entry>)
    requires HoldsFiles(disk, q)
    requires forall e, k :: e in es && e.Quad? && 0 <= k < |q.listings| ==> e.fooPd != q.listings[k].name
    ensures HoldsFiles(PutPds(disk, es), q)
  {
    if es != [] {
      var init, last := es[..|es| - 1], es[|es| - 1];
      assert last in es && forall e :: e in init ==> e in es;
      ReadingKeepsFiles(disk, q, init);
      if last.Quad? {
        InclPathsDiffer(last.fooPd, "");
        forall k | 0 <= k < |q.listings| ensures HoldsListing(PutPds(disk, es), q, q.listings[k]) {
          assert HoldsListing(PutPds(disk, init), q, q.listings[k]);
          InclPathsDiffer(last.fooPd, q.listings[k].name);
        }
      }
    }
  }

  // ----- individual include files -----

  /**
   * The permission of outer file `k` to use the grand include file changed, and the comparison does
   * not see it: its closure is the same and no header of it is left to the grand include file.
   */
  ghost predicate FlipUnseen(p: Plan, q: Plan, k: nat)
    requires k < |p.listings| == |q.listings|
  {
    var l, m := p.listings[k], q.listings[k];
    && l.permitted != m.permitted
    && l.files == m.files
    && forall h :: h in l.files ==> !InGrand(p, h, l.permitted) && !InGrand(q, h, m.permitted)
  }

  /** Listings that compare as unchanged give the same include file unless the permission changed. */
  lemma UnchangedContent(p: Plan, l: Listing, q: Plan, m: Listing)
    requires Unchanged(p, l, q, m)
    ensures InclContent(p, l) == InclContent(q, m) <==> l.permitted == m.permitted
  {
    FilterAlike(l.files, NotInGrand(p, l.permitted), NotInGrand(q, m.permitted));
    assert Kept(p, l) == Kept(q, m);
    var lines := IncludeLines(Kept(p, l));
    assert |InclHead(true) + lines| != |InclHead(false) + lines|;
  }

  lemma FlipUnseenIsUnchanged(p: Plan, q: Plan, k: nat)
    requires k < |p.listings| == |q.listings|
    ensures FlipUnseen(p, q, k) <==>
      (Unchanged(p, p.listings[k], q, q.listings[k]) && p.listings[k].permitted != q.listings[k].permitted)
  {
    var l, m := p.listings[k], q.listings[k];
    if Unchanged(p, l, q, m) && l.permitted != m.permitted {
      forall h | h in l.files ensures !InGrand(p, h, l.permitted) && !InGrand(q, h, m.permitted) {
        var i :| 0 <= i < |l.files| && l.files[i] == h;
        assert InGrand(p, l.files[i], l.permitted) == InGrand(q, l.files[i], m.permitted);
      }
    }
  }

  /**
   * The incremental run leaves the include file of outer file `k` as a full run would write it,
   * unless the run is short and a change of permission goes unseen; and then it does not.
   */
  lemma IncrementalIndividual(disk: Disk, p: Plan, q: Plan, k: nat)
    requires DistinctNames(p.listings) && HoldsFiles(disk, q) && k < |p.listings|
    ensures HoldsListing(PutDiffs(disk, p, q), p, p.listings[k]) <==> !(ShortRun(p, q) && FlipUnseen(p, q, k))
  {
    PutAllListing(disk, p, k);
    if ShortRun(p, q) {
      InclPathsDiffer(p.listings[k].name, "");
      ChangedIndividual(disk, p, q, k);
    }
  }

  lemma ChangedIndividual(disk: Disk, p: Plan, q: Plan, k: nat)
    requires DistinctNames(p.listings) && HoldsFiles(disk, q) && k < |p.listings| && ShortRun(p, q)
    ensures HoldsListing(PutChanged(disk, p, q, |p.listings|), p, p.listings[k]) <==> !FlipUnseen(p, q, k)
  {
    assert HoldsListing(disk, q, q.listings[k]);
    PutChangedAt(disk, p, q, |p.listings|, k);
    FlipUnseenIsUnchanged(p, q, k);
    if Unchanged(p, p.listings[k], q, q.listings[k]) {
      UnchangedContent(p, p.listings[k], q, q.listings[k]);
    }
  }

  // ----- the grand include file and the makefile -----

  /** A header of the grand include list crossed the threshold, one way or the other. */
  ghost predicate Crossed(p: Plan, q: Plan) {
    exists h :: h in p.grand && Qualifies(p, h) != Qualifies(q, h)
  }

  /** The incremental run leaves the grand include file right unless it is short and a header crossed the threshold. */
  lemma IncrementalGrand(disk: Disk, p: Plan, q: Plan)
    requires HoldsGrand(disk, q) && NoDup(p.grand)
    ensures HoldsGrand(PutDiffs(disk, p, q), p) <==> !(ShortRun(p, q) && Crossed(p, q))
  {
    PutAllShared(disk, p);
    if ShortRun(p, q) {
      forall l | l in p.listings ensures GI_PATH != InclPath(l.name) {
        InclPathsDiffer(l.name, "");
      }
      PutChangedElsewhere(disk, p, q, |p.listings|, GI_PATH);
      SameGrandContent(p, q);
      FilterEqual(p.grand, ForGrand(p), ForGrand(q));
    }
  }

  lemma SameGrandContent(p: Plan, q: Plan)
    ensures GrandContent(p) == GrandContent(q) <==> GrandFiles(p) == GrandFiles(q)
  {
    var a, b := IncludeLines(GrandFiles(p)), IncludeLines(GrandFiles(q));
    IncludeLinesInjective(GrandFiles(p), GrandFiles(q));
    var x, y := GrandHead() + a + GrandTail(), GrandHead() + b + GrandTail();
    if x == y {
      assert x[2..|x| - 3] == a && y[2..|y| - 3] == b;
    }
  }

  function EntriesAt(disk: Disk): seq<MakeEntry> {
    if GD_PATH in disk && disk[GD_PATH].Makefile? then disk[GD_PATH].entries else []
  }

  /**
   * The makefile of the incremental run is the one of a full run unless the run is short and some header
   * is precompiled; the compiled grand include file then depends on nothing there, instead of its headers.
   */
  lemma IncrementalMakefile(disk: Disk, p: Plan, q: Plan)
    ensures HoldsMakefile(PutDiffs(disk, p, q), p) <==> !(ShortRun(p, q) && GrandFiles(p) != [])
    ensures forall x :: Direct(EntriesAt(PutDiffs(disk, p, q)), GI_COMPILED, x) <==>
      (!ShortRun(p, q) && GrandFiles(p) != [] && (x == Reference(PRECOMPILED) || x in WithPds(p, GrandFiles(p))))
  {
    PutAllShared(disk, p);
    if GrandFiles(p) != [] {
      assert |MakeEntries(p, |GrandFiles(p)|)| == |MakeEntries(p, 0)| + 2;
    }
    var es := EntriesAt(PutDiffs(disk, p, q));
    forall x ensures Direct(es, GI_COMPILED, x) <==>
      (!ShortRun(p, q) && GrandFiles(p) != [] && (x == Reference(PRECOMPILED) || x in WithPds(p, GrandFiles(p))))
    {
      CompiledDepends(p, 0, x);
      CompiledDepends(p, |GrandFiles(p)|, x);
    }
  }

  // ----- whatever the disk held -----

  /** The include file of outer file `k` is right afterwards unless it was not written and was wrong before. */
  lemma IncrementalListing(disk: Disk, p: Plan, q: Plan, k: nat)
    requires DistinctNames(p.listings) && k < |p.listings|
    ensures HoldsListing(PutDiffs(disk, p, q), p, p.listings[k]) <==>
      (ShortRun(p, q) && Unchanged(p, p.listings[k], q, q.listings[k]) ==> HoldsListing(disk, p, p.listings[k]))
  {
    PutAllListing(disk, p, k);
    if ShortRun(p, q) {
      InclPathsDiffer(p.listings[k].name, "");
      PutChangedAt(disk, p, q, |p.listings|, k);
    }
  }

  /** The platform's own header that the entries give last to the platform-dependent include `f`, if they give one. */
  function LastPd(es: seq<Entry>, f: File): Option<File> {
    if es == [] then None else
    var last := es[|es| - 1];
    if last.Quad? && last.fooPd == f then Some(last.fooArch) else LastPd(es[..|es| - 1], f)
  }

  function PdContent(x: File): Content { Text([IncludeLine(x)]) }

  lemma {:induction false} LastPdJoin(es: seq<Entry>, more: seq<Entry>, f: File)
    ensures LastPd(es + more, f) == if LastPd(more, f).Some? then LastPd(more, f) else LastPd(es, f)
    decreases |more|
  {
    if more == [] {
      assert es + more == es;
    } else {
      assert (es + more)[..|es + more| - 1] == es + more[..|more| - 1];
      LastPdJoin(es, more[..|more| - 1], f);
    }
  }

  lemma {:induction false} PutPdsJoin(disk: Disk, es: seq<Entry>, more: seq<Entry>)
    ensures PutPds(PutPds(disk, es), more) == PutPds(disk, es + more)
    decreases |more|
  {
    if more == [] {
      assert es + more == es;
    } else {
      assert (es + more)[..|es + more| - 1] == es + more[..|more| - 1];
      PutPdsJoin(disk, es, more[..|more| - 1]);
    }
  }

  /** Reading writes the platform-dependent includes, the last one for each, and nothing else. */
  lemma {:induction false} PutPdsAt(disk: Disk, es: seq<Entry>, f: File)
    ensures var d, path := PutPds(disk, es), InclPath(f);
      match LastPd(es, f)
      case None => Same(disk, d, path)
      case Some(x) => path in d && d[path] == PdContent(x)
  {
    if es != [] {
      PutPdsAt(disk, es[..|es| - 1], f);
      if es[|es| - 1].Quad? {
        InclPathsDiffer(es[|es| - 1].fooPd, f);
      }
    }
  }

  lemma {:induction false} PutPdsElsewhere(disk: Disk, es: seq<Entry>, path: string)
    requires forall f :: path != InclPath(f)
    ensures Same(disk, PutPds(disk, es), path)
  {
    if es != [] {
      PutPdsElsewhere(disk, es[..|es| - 1], path);
    }
  }

  lemma {:induction false} PutPdsPaths(es: seq<Entry>, path: string)
    requires path in PutPds(map[], es)
    ensures exists f :: path == InclPath(f) && LastPd(es, f).Some?
  {
    var last := es[|es| - 1];
    if last.Quad? && path == InclPath(last.fooPd) {
      assert LastPd(es, last.fooPd).Some?;
    } else {
      PutPdsPaths(es[..|es| - 1], path);
      var f :| path == InclPath(f) && LastPd(es[..|es| - 1], f).Some?;
      assert LastPd(es, f).Some?;
    }
  }

  lemma {:induction false} PutListingsElsewhere(disk: Disk, p: Plan, n: nat, path: string)
    requires n <= |p.listings| && forall l :: l in p.listings ==> path != InclPath(l.name)
    ensures Same(disk, PutListings(disk, p, n), path)
  {
    if n > 0 {
      PutListingsElsewhere(disk, p, n - 1, path);
      assert p.listings[n - 1] in p.listings;
      PutAway(PutListings(disk, p, n - 1), p, p.listings[n - 1], path);
    }
  }

  /** Neither kind of run touches any other include file. */
  lemma PutElsewhere(disk: Disk, p: Plan, q: Plan, f: File)
    requires forall l :: l in p.listings ==> InclPath(f) != InclPath(l.name)
    ensures Same(disk, PutAll(disk, p), InclPath(f)) && Same(disk, PutDiffs(disk, p, q), InclPath(f))
  {
    InclPathsDiffer(f, "");
    PutListingsElsewhere(disk, p, |p.listings|, InclPath(f));
    if ShortRun(p, q) {
      PutChangedElsewhere(disk, p, q, |p.listings|, InclPath(f));
    }
  }

  /**
   * The short run leaves outer file `k` with the wrong include file: it compares as unchanged, while its
   * permission changed, or `pd`, last written to the same path, is not what belongs there.
   */
  ghost predicate StaleInclude(pd: Option<File>, p: Plan, q: Plan, k: nat)
    requires k < |p.listings| == |q.listings|
  {
    var l, m := p.listings[k], q.listings[k];
    && Unchanged(p, l, q, m)
    && match pd
       case None => l.permitted != m.permitted
       case Some(x) => InclContent(p, l) != PdContent(x)
  }

  lemma StaleUnlessFlipped(p: Plan, q: Plan, k: nat)
    requires k < |p.listings| == |q.listings|
    ensures StaleInclude(None, p, q, k) <==> FlipUnseen(p, q, k)
  {
    FlipUnseenIsUnchanged(p, q, k);
  }

  /**
   * The whole disk: after the incremental run every file is as a full run would write it exactly if
   * the run was not short, or no permission changed unseen, no header crossed the threshold and
   * nothing is precompiled.
   */
  lemma IncrementalIsFull(disk: Disk, p: Plan, q: Plan)
    requires DistinctNames(p.listings) && HoldsFiles(disk, q) && NoDup(p.grand)
    ensures var d := PutDiffs(disk, p, q);
      (HoldsFiles(d, p) && HoldsMakefile(d, p))
      <==> (ShortRun(p, q) ==>
              (forall k :: 0 <= k < |p.listings| ==> !FlipUnseen(p, q, k))
              && !Crossed(p, q) && GrandFiles(p) == [])
  {
    var d := PutDiffs(disk, p, q);
    forall k | 0 <= k < |p.listings|
      ensures HoldsListing(d, p, p.listings[k]) <==> !(ShortRun(p, q) && FlipUnseen(p, q, k))
    {
      IncrementalIndividual(disk, p, q, k);
    }
    IncrementalGrand(disk, p, q);
    IncrementalMakefile(disk, p, q);
  }
}
