/** The database object: reading, computing and writing, each proved against its specification. */
module Databases {
  import opened Seqs
  import opened IncludeGraph
  import opened IncludeWalk
  import opened WalkProofs
  import opened Closures
  import opened IncludeDb
  import opened Planning
  import opened Computing
  import opened Outputs
  import opened Incremental
  import opened FileLists

  class FileSystem {
    var disk: Disk

    constructor ()
      ensures disk == map[]
    {
      disk := map[];
    }
  }

  /** `f` is the entry of its name in `d`. */
  ghost predicate IsEntry(f: FileList, d: Db, files: set<FileList>)
    reads f
  {
    && f.name in d.includes && Names(f.items) == d.includes[f.name] && Within(f.items, files)
    && f.name in d.pds && Names(f.platformDependentIncludees) == d.pds[f.name]
    && (f.useGrandInclude <==> f.name !in d.refuses)
    && f.platformDependentInclude == if f.name in d.marked then Some(InclPath(f.name)) else None
  }

  ghost predicate IsIdle(f: FileList)
    reads f
  {
    !f.beenHere && !f.mayBeCycle && !f.isCycle && f.count == 0
  }

  /** `s` is the result list `l`. */
  ghost predicate IsListing(s: FileList, l: Listing, files: set<FileList>)
    reads s
  {
    && s.name == l.name && s.useGrandInclude == l.permitted
    && Names(s.items) == l.files && Within(s.items, files)
    && s.platformDependentInclude == None
  }

  lemma NamesMember(ls: seq<FileList>, n: File)
    ensures n in Names(ls) <==> exists f :: f in ls && f.name == n
  {
    if n in Names(ls) {
      var i :| 0 <= i < |ls| && Names(ls)[i] == n;
      assert ls[i] in ls;
    }
    if f :| f in ls && f.name == n {
      var i :| 0 <= i < |ls| && ls[i] == f;
      assert Names(ls)[i] == n;
    }
  }

  lemma NamesOfAll(ls: seq<FileList>)
    ensures forall f :: f in ls ==> f.name in Names(ls)
  {
    forall f | f in ls ensures f.name in Names(ls) {
      NamesMember(ls, f.name);
    }
  }

  lemma NamesUnique(ls: seq<FileList>)
    requires NoDup(Names(ls))
    ensures UniqueNames(Elems(ls))
  {
    forall f | f in Elems(ls) ensures Owner(Elems(ls), f.name) == f {
      var h := Owner(Elems(ls), f.name);
      var i :| 0 <= i < |ls| && ls[i] == f;
      var j :| 0 <= j < |ls| && ls[j] == h;
      assert Names(ls)[i] == Names(ls)[j];
    }
  }

  lemma NamesAddIfAbsent(ls: seq<FileList>, x: FileList, files: set<FileList>)
    requires UniqueNames(files) && x in files && Within(ls, files)
    ensures Names(AddIfAbsent(ls, x)) == AddIfAbsent(Names(ls), x.name)
  {
    NamesMember(ls, x.name);
    assert forall f :: f in ls ==> f in Elems(ls);
  }

  class Database {
    const allFiles: FileList
    const outerFiles: FileList
    const indivIncludes: FileList
    const grandInclude: FileList
    const threshold: int
    var nOuterFiles: int
    var nPrecompiledFiles: int

    ghost function Files(): set<FileList>
      reads allFiles`items
    {
      Elems(allFiles.items)
    }

    ghost predicate IsSeparate(l: FileList)
      reads allFiles`items
    {
      l !in Files() && l != allFiles && l != outerFiles && l != indivIncludes && l != grandInclude
    }

    ghost predicate Shape()
      reads allFiles`items
    {
      && allFiles !in Files() && outerFiles !in Files() && indivIncludes !in Files() && grandInclude !in Files()
      && allFiles != outerFiles && allFiles != indivIncludes && allFiles != grandInclude
      && outerFiles != indivIncludes && outerFiles != grandInclude && indivIncludes != grandInclude
    }

    /** What was read is `d`; nothing is computed yet. */
    ghost predicate Loaded(d: Db)
      reads this, allFiles, outerFiles, indivIncludes, grandInclude, Files()
    {
      && Shape()
      && Names(allFiles.items) == d.files && NoDup(d.files) && Known(d)
      && Names(outerFiles.items) == d.outers && Within(outerFiles.items, Files())
      && (forall f :: f in Files() ==> IsEntry(f, d, Files()) && IsIdle(f))
      && indivIncludes.items == [] && grandInclude.items == []
      && indivIncludes.platformDependentInclude == None && grandInclude.platformDependentInclude == None
      && nOuterFiles == 0 && nPrecompiledFiles == 0
    }

    constructor (t: int)
      ensures fresh(allFiles) && fresh(outerFiles) && fresh(indivIncludes) && fresh(grandInclude)
      ensures threshold == t && Loaded(EmptyDb())
    {
      allFiles := new FileList("allFiles");
      outerFiles := new FileList("outerFiles");
      indivIncludes := new FileList("indiv_includes");
      grandInclude := new FileList("_precompiled");
      threshold, nOuterFiles, nPrecompiledFiles := t, 0, 0;
    }

    // ----- reading -----

    method Intern(n: File, ghost d: Db) returns (r: Status, f: FileList)
      requires Loaded(d)
      modifies allFiles`items
      ensures match IncludeDb.Intern(d, n)
        case None => r.Fatal?
        case Some(d') => r == Going && f.name == n && f in Files() && Loaded(d')
      ensures old(Files()) <= Files() && fresh(Files() - old(Files()))
    {
      NamesMember(allFiles.items, n);
      ghost var was := Files();
      assert forall h :: h in was ==> h.name in Names(allFiles.items) by { NamesOfAll(allFiles.items); }
      r, f := allFiles.ListForFile(n);
      if r == Going && n !in d.files {
        ghost var d' := IncludeDb.Intern(d, n).value;
        assert Files() == was + {f};
        assert NoDup(d'.files);
        forall h | h in Files() ensures IsEntry(h, d', Files()) && IsIdle(h) {
          if h != f {
            assert h in was && h.name != n && IsEntry(h, d, was);
          }
        }
      }
    }

    method AddOuter(f: FileList, ghost d: Db)
      requires Loaded(d) && f in Files()
      modifies outerFiles`items
      ensures Loaded(IncludeDb.AddOuter(d, f.name))
    {
      if IsOuter(f.name) {
        NamesUnique(allFiles.items);
        NamesAddIfAbsent(outerFiles.items, f, Files());
        outerFiles.AddIfAbsent(f);
      }
    }

    method Refuse(f: FileList, ghost d: Db)
      requires Loaded(d) && f in Files()
      modifies f`useGrandInclude
      ensures Loaded(d.(refuses := d.refuses + {f.name}))
    {
      NamesUnique(allFiles.items);
      NamesOfAll(allFiles.items);
      f.useGrandInclude := false;
    }

    method Mark(f: FileList, ghost d: Db)
      requires Loaded(d) && f in Files()
      modifies f`platformDependentInclude
      ensures Loaded(IncludeDb.AddMark(d, f.name))
    {
      NamesUnique(allFiles.items);
      NamesOfAll(allFiles.items);
      f.platformDependentInclude := Some(InclPath(f.name));
    }

    method AddInclude(f: FileList, x: FileList, ghost d: Db)
      requires Loaded(d) && f in Files() && x in Files()
      modifies f`items
      ensures f.name in d.includes && Loaded(IncludeDb.AddInclude(d, f.name, x.name))
    {
      NamesUnique(allFiles.items);
      NamesAddIfAbsent(f.items, x, Files());
      f.AddIfAbsent(x);
    }

    method AddPd(f: FileList, x: FileList, ghost d: Db)
      requires Loaded(d) && f in Files() && x in Files()
      modifies f`platformDependentIncludees
      ensures f.name in d.pds && Loaded(IncludeDb.AddPd(d, f.name, x.name))
    {
      NamesUnique(allFiles.items);
      assert Names(f.platformDependentIncludees + [x]) == Names(f.platformDependentIncludees) + [x.name];
      f.platformDependentIncludees := f.platformDependentIncludees + [x];
    }

    method InternIncluder(n: File, ghost d: Db) returns (r: Status, f: FileList)
      requires Aligned(d) && Loaded(d)
      modifies allFiles`items, outerFiles`items
      ensures old(Files()) <= Files() && fresh(Files() - old(Files()))
      ensures match ReadIncluder(d, n)
        case None => r.Fatal?
        case Some(d') => r == Going && f.name == n && f in Files() && Loaded(d')
    {
      r, f := Intern(n, d);
      if r.Fatal? { return; }
      AddOuter(f, IncludeDb.Intern(d, n).value);
    }

    method InternIncludee(f: FileList, n: File, ghost d: Db) returns (r: Status)
      requires Aligned(d) && Loaded(d) && f in Files() && f.name in d.files
      modifies allFiles`items, f`items
      ensures old(Files()) <= Files() && fresh(Files() - old(Files()))
      ensures match ReadIncludee(d, f.name, n)
        case None => r.Fatal?
        case Some(d') => r == Going && Loaded(d')
    {
      var x;
      r, x := Intern(n, d);
      if r.Fatal? { return; }
      AddInclude(f, x, IncludeDb.Intern(d, n).value);
    }

    method GetPair(includer: File, includee: string, ghost d: Db) returns (r: Status)
      requires Aligned(d) && Loaded(d)
      modifies allFiles`items, outerFiles`items, Files()
      ensures old(Files()) <= Files() && fresh(Files() - old(Files()))
      ensures match ReadPair(d, includer, includee)
        case None => r.Fatal?
        case Some(d') => r == Going && Loaded(d')
    {
      var p;
      r, p := InternIncluder(includer, d);
      if r.Fatal? { return; }
      ghost var d1 := ReadIncluder(d, includer).value;
      if includee == PLATFORM_DEPENDENT {
        r := Fatal("invalid line: old-style " + PLATFORM_DEPENDENT);
      } else if includee == NO_GRAND_INCLUDE {
        Refuse(p, d1);
      } else {
        r := InternIncludee(p, includee, d1);
      }
    }

    method InternMarked(n: File, ghost d: Db) returns (r: Status)
      requires Aligned(d) && Loaded(d)
      modifies allFiles`items, Files()
      ensures old(Files()) <= Files() && fresh(Files() - old(Files()))
      ensures match ReadMark(d, n)
        case None => r.Fatal?
        case Some(d') => r == Going && Loaded(d')
    {
      var f;
      r, f := Intern(n, d);
      if r.Fatal? { return; }
      Mark(f, IncludeDb.Intern(d, n).value);
    }

    method InternPd(foo: File, fooArch: File, ghost d: Db) returns (r: Status)
      requires Aligned(d) && Loaded(d)
      modifies allFiles`items, Files()
      ensures old(Files()) <= Files() && fresh(Files() - old(Files()))
      ensures match ReadPd(d, foo, fooArch)
        case None => r.Fatal?
        case Some(d') => r == Going && Loaded(d')
    {
      var f, x;
      r, f := Intern(foo, d);
      if r.Fatal? { return; }
      ghost var d1 := IncludeDb.Intern(d, foo).value;
      r, x := Intern(fooArch, d1);
      if r.Fatal? { return; }
      AddPd(f, x, IncludeDb.Intern(d1, fooArch).value);
    }

    method GetQuad(tag: string, foo: File, fooPd: File, fooArch: File, fs: FileSystem, ghost d: Db)
      returns (r: Status)
      requires Aligned(d) && Loaded(d)
      modifies allFiles`items, Files(), fs
      ensures old(Files()) <= Files() && fresh(Files() - old(Files()))
      ensures match ReadQuad(d, tag, foo, fooPd, fooArch)
        case None => r.Fatal?
        case Some(d') => r == Going && Loaded(d')
      ensures r == Going ==> fs.disk == old(fs.disk)[InclPath(fooPd) := Text([IncludeLine(fooArch)])]
    {
      if tag != PLATFORM_DEPENDENT {
        return Fatal("first token of four-word line should be " + PLATFORM_DEPENDENT);
      }
      if !InclNameFits(fooPd) {
        return Fatal(fooPd + " is too long");
      }
      fs.disk := fs.disk[InclPath(fooPd) := Text([IncludeLine(fooArch)])];
      r := InternMarked(fooPd, d);
      if r.Fatal? { return; }
      r := InternPd(foo, fooArch, ReadMark(d, fooPd).value);
    }

    method GetEntry(e: Entry, fs: FileSystem, ghost d: Db) returns (r: Status)
      requires Aligned(d) && Loaded(d)
      modifies allFiles`items, outerFiles`items, Files(), fs
      ensures old(Files()) <= Files() && fresh(Files() - old(Files()))
      ensures match ReadEntry(d, e)
        case None => r.Fatal?
        case Some(d') => r == Going && Loaded(d')
      ensures r == Going ==> fs.disk == PutPd(old(fs.disk), e)
    {
      match e {
        case Pair(a, b) => r := GetPair(a, b, d);
        case Quad(tag, foo, fooPd, fooArch) => r := GetQuad(tag, foo, fooPd, fooArch, fs, d);
      }
    }

    method Get(es: seq<Entry>, fs: FileSystem) returns (r: Status)
      requires Loaded(EmptyDb())
      modifies allFiles`items, outerFiles`items, Files(), fs
      ensures old(Files()) <= Files() && fresh(Files() - old(Files()))
      ensures match Read(es)
        case None => r.Fatal?
        case Some(d) => r == Going && Loaded(d)
      ensures r == Going ==> fs.disk == PutPds(old(fs.disk), es)
    {
      r := Going;
      ghost var d := EmptyDb();
      var i := 0;
      while i < |es|
        invariant i <= |es| && r == Going && Read(es[..i]) == Some(d) && Loaded(d)
        invariant old(Files()) <= Files() && fresh(Files() - old(Files()))
        invariant fs.disk == PutPds(old(fs.disk), es[..i])
      {
        ReadSnoc(es, i);
        PutPdsSnoc(old(fs.disk), es, i);
        r := GetEntry(es[i], fs, d);
        if r.Fatal? {
          ReadPrefixFatal(es, i + 1);
          return;
        }
        d := ReadEntry(d, es[i]).value;
        i := i + 1;
      }
      assert es[..i] == es;
    }

    // ----- computing -----

    ghost predicate HasListings(ls: seq<Listing>)
      reads allFiles`items, indivIncludes`items, indivIncludes.items
    {
      && |indivIncludes.items| == |ls|
      && forall k :: 0 <= k < |ls| ==>
           IsListing(indivIncludes.items[k], ls[k], Files()) && IsSeparate(indivIncludes.items[k])
    }

    /** The part of what was read that computing does not change. */
    ghost predicate Basis(d: Db)
      reads allFiles`items, outerFiles`items, Files()`items, Files()`useGrandInclude
    {
      && Shape() && Represents(d.includes, Files())
      && Names(outerFiles.items) == d.outers && Within(outerFiles.items, Files())
      && forall f :: f in Files() ==> (f.useGrandInclude <==> f.name !in d.refuses)
    }

    lemma LoadedHasBasis(d: Db)
      requires Sound(d) && Loaded(d)
      ensures Basis(d)
    {
      NamesUnique(allFiles.items);
    }

    /** After the listings `ls` were made, from marks and reports as in `w0`. */
    ghost predicate Listed(d: Db, w0: Walk, ls: seq<Listing>, session: Session)
      reads allFiles`items, outerFiles`items, indivIncludes`items, indivIncludes.items, Files(), session
    {
      && Basis(d) && HasListings(ls)
      && var w := Start(w0.marked - Covered(ls), session.errors);
         ShowsFlags(w, Files(), session) && Reports(w0, w) && AreDirectIncludes(d, w.errors, |w0.errors|)
    }

    /** One turn of the first loop of compute. */
    method AddListing(c: FileList, session: Session, ghost d: Db, ghost w0: Walk, ghost ls: seq<Listing>)
      returns (r: Status)
      requires Sound(d) && c in Files() && c.name in d.outers && c.name in d.includes && Listed(d, w0, ls, session)
      modifies Files()`beenHere, Files()`mayBeCycle, Files()`isCycle, Files()`platformDependentInclude
      modifies indivIncludes`items, session, this`nOuterFiles
      ensures r.Fatal? <==> ClosureOf(d.includes, c.name) == None
      ensures r == Going ==>
        Listed(d, w0, ls + [ListingOf(d, c.name)], session) && nOuterFiles == old(nOuterFiles) + 1
    {
      ghost var l := ListingOf(d, c.name);
      ghost var w := Start(w0.marked - Covered(ls), session.errors);
      var s;
      r, s := c.DoCFile(session, Files(), d.includes, w.marked, w.errors);
      if r.Fatal? { return; }
      CoveredSnoc(ls, l);
      ghost var v := Start(w.marked - Elems(l.files), session.errors);
      assert v == Start(w0.marked - Covered(ls + [l]), session.errors);
      ReportsTransitive(w0, w, v);
      DirectIncludesMore(d, c.name, w.errors, |w0.errors|, v.errors);
      AddResult(s, d, ls, l);
    }

    method AddResult(s: FileList, ghost d: Db, ghost ls: seq<Listing>, ghost l: Listing)
      requires Basis(d) && HasListings(ls) && IsListing(s, l, Files()) && IsSeparate(s)
      modifies indivIncludes`items, this`nOuterFiles
      ensures Basis(d) && HasListings(ls + [l]) && nOuterFiles == old(nOuterFiles) + 1
    {
      indivIncludes.Add(s);
      nOuterFiles := nOuterFiles + 1;
    }

    /** The first loop of compute: a result list per outer file. */
    method ComputeListings(session: Session, ghost d: Db, ghost w0: Walk) returns (r: Status)
      requires Sound(d) && Listed(d, w0, [], session) && nOuterFiles == 0
      modifies Files()`beenHere, Files()`mayBeCycle, Files()`isCycle, Files()`platformDependentInclude
      modifies indivIncludes`items, session, this`nOuterFiles
      ensures r.Fatal? <==> Cyclic(d)
      ensures r == Going ==>
        Listed(d, w0, Listings(d), session) && nOuterFiles == |d.outers|
    {
      r := Going;
      assert Listings(d)[..0] == [];
      var i := 0;
      while i < |outerFiles.items|
        invariant i <= |outerFiles.items| == |d.outers| && r == Going && nOuterFiles == i
        invariant ListedUpTo(d, w0, i, session)
        invariant !CyclicUpTo(d, i)
      {
        CyclicStep(d, i);
        r := ListOne(i, session, d, w0);
        if r.Fatal? { return; }
        i := i + 1;
      }
      assert Listings(d)[..i] == Listings(d);
    }

    ghost predicate ListedUpTo(d: Db, w0: Walk, n: nat, session: Session)
      requires Sound(d) && n <= |d.outers|
      reads allFiles`items, outerFiles`items, indivIncludes`items, indivIncludes.items, Files(), session
    {
      Listed(d, w0, Listings(d)[..n], session)
    }

    method ListOne(n: nat, session: Session, ghost d: Db, ghost w0: Walk) returns (r: Status)
      requires Sound(d) && n < |d.outers| && d.outers[n] in d.includes && ListedUpTo(d, w0, n, session)
      modifies Files()`beenHere, Files()`mayBeCycle, Files()`isCycle, Files()`platformDependentInclude
      modifies indivIncludes`items, session, this`nOuterFiles
      ensures r.Fatal? <==> ClosureOf(d.includes, d.outers[n]) == None
      ensures r == Going ==> ListedUpTo(d, w0, n + 1, session) && nOuterFiles == old(nOuterFiles) + 1
    {
      var c := outerFiles.items[n];
      assert c.name == d.outers[n];
      PrefixSnoc(Listings(d), n);
      r := AddListing(c, session, d, w0, Listings(d)[..n]);
    }

    /** In the second loop of compute, after `n` listings: what the flags, the grand list and the counts show. */
    ghost predicate Pooled(d: Db, ls: seq<Listing>, n: nat, w: Walk, session: Session)
      requires n <= |ls|
      reads allFiles`items, outerFiles`items, indivIncludes`items, indivIncludes.items, Files(), grandInclude, session
    {
      && Basis(d) && HasListings(ls) && Shows(w, Files(), grandInclude, session)
      && forall f :: f in Files() ==> f.count == Count(ls[..n], f.name)
    }

    /** One turn of the second loop of compute. */
    method PoolListing(n: nat, session: Session, ghost d: Db, ghost ls: seq<Listing>, ghost w: Walk)
      requires n < |ls| && Pooled(d, ls, n, w, session)
      requires Elems(ls[n].files) <= d.includes.Keys && NoDup(ls[n].files)
      requires GrandTurn(d.includes, w, ls[n]).Done?
      modifies Files()`beenHere, Files()`mayBeCycle, Files()`isCycle, Files()`platformDependentInclude
      modifies Files()`count, grandInclude`items, session
      ensures Pooled(d, ls, n + 1, GrandTurn(d.includes, w, ls[n]).w, session)
    {
      var indivInclude := indivIncludes.items[n];
      assert IsListing(indivInclude, ls[n], Files());
      if indivInclude.useGrandInclude {
        PoolFiles(indivInclude, session, d, ls, n, w);
        CountFiles(indivInclude, session, d, ls, n, VisitAll(d.includes, w, ls[n].name, ls[n].files).w);
      } else {
        forall f: File { CountSnoc(ls, n, f); }
      }
    }

    method PoolFiles(indivInclude: FileList, session: Session, ghost d: Db, ghost ls: seq<Listing>, ghost n: nat,
                     ghost w: Walk)
      requires n < |ls| && Pooled(d, ls, n, w, session) && indivInclude == indivIncludes.items[n]
      requires Elems(ls[n].files) <= d.includes.Keys && VisitAll(d.includes, w, ls[n].name, ls[n].files).Done?
      modifies Files()`beenHere, Files()`mayBeCycle, Files()`isCycle, Files()`platformDependentInclude
      modifies grandInclude`items, session
      ensures Pooled(d, ls, n, VisitAll(d.includes, w, ls[n].name, ls[n].files).w, session)
    {
      assert IsListing(indivInclude, ls[n], Files()) && IsSeparate(indivInclude);
      var r := indivInclude.DoFiles(grandInclude, session, Files(), d.includes, w);
    }

    method CountFiles(indivInclude: FileList, session: Session, ghost d: Db, ghost ls: seq<Listing>, ghost n: nat,
                      ghost w: Walk)
      requires n < |ls| && Pooled(d, ls, n, w, session) && indivInclude == indivIncludes.items[n]
      requires ls[n].permitted && NoDup(ls[n].files)
      modifies Files()`count
      ensures Pooled(d, ls, n + 1, w, session)
    {
      forall f: File { CountSnoc(ls, n, f); }
      assert IsListing(indivInclude, ls[n], Files());
      indivInclude.CountItems(Files());
    }

    /** The second loop of compute: the grand include list and the counts. */
    method PoolListings(session: Session, ghost d: Db, ghost ls: seq<Listing>, ghost w0: Walk)
      requires Closed(d.includes) && Pooled(d, ls, 0, w0, session)
      requires forall l :: l in ls ==> Elems(l.files) <= d.includes.Keys && NoDup(l.files)
      requires GrandPass(d.includes, w0, ls).Done?
      modifies Files()`beenHere, Files()`mayBeCycle, Files()`isCycle, Files()`platformDependentInclude
      modifies Files()`count, grandInclude`items, session
      ensures Pooled(d, ls, |ls|, GrandPass(d.includes, w0, ls).w, session)
    {
      ghost var w := w0;
      assert ls[0..] == ls;
      var i := 0;
      while i < |indivIncludes.items|
        invariant i <= |ls| == |indivIncludes.items| && Pooled(d, ls, i, w, session)
        invariant GrandPass(d.includes, w0, ls) == GrandFrom(d.includes, w, ls, i)
      {
        w := PoolNext(i, session, d, ls, w0, w);
        i := i + 1;
      }
      assert ls[i..] == [];
    }

    method PoolNext(n: nat, session: Session, ghost d: Db, ghost ls: seq<Listing>, ghost w0: Walk, ghost w: Walk)
      returns (ghost v: Walk)
      requires Closed(d.includes) && n < |ls| && Pooled(d, ls, n, w, session)
      requires forall l :: l in ls ==> Elems(l.files) <= d.includes.Keys && NoDup(l.files)
      requires GrandPass(d.includes, w0, ls).Done? && GrandPass(d.includes, w0, ls) == GrandFrom(d.includes, w, ls, n)
      modifies Files()`beenHere, Files()`mayBeCycle, Files()`isCycle, Files()`platformDependentInclude
      modifies Files()`count, grandInclude`items, session
      ensures Pooled(d, ls, n + 1, v, session)
      ensures GrandPass(d.includes, w0, ls) == GrandFrom(d.includes, v, ls, n + 1)
    {
      GrandFromStep(d.includes, w, ls, n);
      assert ls[n] in ls;
      PoolListing(n, session, d, ls, w);
      v := GrandTurn(d.includes, w, ls[n]).w;
    }

    /** What computing needs not know and does not change. */
    ghost predicate Untouched(pds: map<File, seq<File>>)
      reads allFiles`items, Files()`platformDependentIncludees
      reads indivIncludes`platformDependentInclude, grandInclude`platformDependentInclude
    {
      && (forall f {:trigger f.platformDependentIncludees} :: f in Files() ==>
            f.name in pds && Names(f.platformDependentIncludees) == pds[f.name])
      && indivIncludes.platformDependentInclude == None && grandInclude.platformDependentInclude == None
    }

    /** The database has been computed, and `p` is the plan it holds. */
    ghost predicate HasPlan(p: Plan)
      reads allFiles, outerFiles, indivIncludes, grandInclude, Files(), indivIncludes.items
    {
      && p.threshold == threshold && Shape() && HasListings(p.listings) && Untouched(p.pds)
      && Names(grandInclude.items) == p.grand && Within(grandInclude.items, Files())
      && (forall f {:trigger f.count} :: f in Files() ==> f.count == Count(p.listings, f.name))
      && |outerFiles.items| == |p.listings|
      && forall k :: 0 <= k < |p.listings| ==> outerFiles.items[k].name == p.listings[k].name
    }

    /**
     * Fatal exactly on a cycle in reach of an outer file. Otherwise the database holds the plan,
     * and each marked file in a closure was reported once.
     */
    method Compute(session: Session, ghost d: Db) returns (r: Status)
      requires Sound(d) && Loaded(d)
      requires session.exitCode == if session.errors == [] then 0 else 1
      modifies Files()`beenHere, Files()`mayBeCycle, Files()`isCycle, Files()`platformDependentInclude
      modifies Files()`count, indivIncludes`items, grandInclude`items, session, this`nOuterFiles
      ensures r.Fatal? <==> Cyclic(d)
      ensures r == Going ==> HasPlan(PlanOf(d, threshold)) && nPrecompiledFiles == 0
      ensures r == Going ==>
        && Reports(Start(d.marked, old(session.errors)), Start(d.marked - Covered(Listings(d)), session.errors))
        && AreDirectIncludes(d, session.errors, |old(session.errors)|)
      ensures r == Going ==> session.exitCode == if session.errors == [] then 0 else 1
    {
      ghost var w0 := Start(d.marked, session.errors);
      r := ListLoaded(session, d, w0);
      if r.Fatal? { return; }
      ComputePlan(session, d, w0);
    }

    /** The first loop over what was read: nothing is counted in it. */
    method ListLoaded(session: Session, ghost d: Db, ghost w0: Walk) returns (r: Status)
      requires Sound(d) && Loaded(d) && w0 == Start(d.marked, session.errors)
      requires session.exitCode == if session.errors == [] then 0 else 1
      modifies Files()`beenHere, Files()`mayBeCycle, Files()`isCycle, Files()`platformDependentInclude
      modifies indivIncludes`items, session, this`nOuterFiles
      ensures r.Fatal? <==> Cyclic(d)
      ensures r == Going ==> Listed(d, w0, Listings(d), session) && Untouched(d.pds) && Uncounted()
    {
      LoadedIsListed(d, session);
      r := ComputeListings(session, d, w0);
    }

    method ComputePlan(session: Session, ghost d: Db, ghost w0: Walk)
      requires Sound(d) && !Cyclic(d) && Listed(d, w0, Listings(d), session) && w0.marked == d.marked
      requires Untouched(d.pds) && Uncounted()
      modifies Files()`beenHere, Files()`mayBeCycle, Files()`isCycle, Files()`platformDependentInclude
      modifies Files()`count, grandInclude`items, session
      ensures HasPlan(PlanOf(d, threshold))
      ensures session.errors == old(session.errors)
      ensures session.exitCode == if session.errors == [] then 0 else 1
    {
      ghost var w := Start(d.marked - Covered(Listings(d)), session.errors);
      GrandPassOfListings(d, w.marked, w.errors, threshold);
      ListedIsPooled(d, w0, Listings(d), session);
      ComputeGrand(session, d, PlanOf(d, threshold), w);
    }

    /** Nothing is counted and the grand include list is empty. */
    ghost predicate Uncounted()
      reads allFiles`items, Files()`count, grandInclude`items
    {
      (forall f :: f in Files() ==> f.count == 0) && grandInclude.items == []
    }

    method ComputeGrand(session: Session, ghost d: Db, ghost p: Plan, ghost w: Walk)
      requires Closed(d.includes) && Pooled(d, p.listings, 0, w, session) && Untouched(p.pds)
      requires p.threshold == threshold
      requires |p.listings| == |d.outers| && forall k :: 0 <= k < |d.outers| ==> p.listings[k].name == d.outers[k]
      requires forall l :: l in p.listings ==> Elems(l.files) <= d.includes.Keys && NoDup(l.files)
      requires var q := GrandPass(d.includes, w, p.listings);
        q.Done? && q.w.out == p.grand && q.w.errors == w.errors && q.w.traced == {}
      modifies Files()`beenHere, Files()`mayBeCycle, Files()`isCycle, Files()`platformDependentInclude
      modifies Files()`count, grandInclude`items, session
      ensures HasPlan(p)
      ensures session.errors == w.errors && session.exitCode == if w.errors == [] then 0 else 1
    {
      PoolListings(session, d, p.listings, w);
      PooledIsPlan(d, GrandPass(d.includes, w, p.listings).w, p, session);
    }

    lemma ListedIsPooled(d: Db, w0: Walk, ls: seq<Listing>, session: Session)
      requires Listed(d, w0, ls, session) && Uncounted()
      ensures Pooled(d, ls, 0, Start(w0.marked - Covered(ls), session.errors), session)
    {
      assert ls[..0] == [];
    }

    lemma PooledIsPlan(d: Db, w: Walk, p: Plan, session: Session)
      requires Pooled(d, p.listings, |p.listings|, w, session) && Untouched(p.pds)
      requires p.grand == w.out && p.threshold == threshold
      requires |p.listings| == |d.outers| && forall k :: 0 <= k < |d.outers| ==> p.listings[k].name == d.outers[k]
      ensures HasPlan(p)
    {
      assert p.listings[..|p.listings|] == p.listings;
      forall k | 0 <= k < |p.listings| ensures outerFiles.items[k].name == p.listings[k].name {
        assert Names(outerFiles.items)[k] == d.outers[k];
      }
    }

    lemma LoadedIsListed(d: Db, session: Session)
      requires Sound(d) && Loaded(d)
      requires session.exitCode == if session.errors == [] then 0 else 1
      ensures Listed(d, Start(d.marked, session.errors), [], session) && Untouched(d.pds)
      ensures Uncounted()
    {
      LoadedHasBasis(d);
      assert session.errors[|session.errors|..] == [];
      assert Covered([]) == {};
    }

    // ----- writing -----

    predicate HfileIsInGrandInclude(hfile: FileList, cfile: FileList)
      reads hfile, cfile
    {
      hfile.count >= threshold && cfile.useGrandInclude
    }

    /** `s` shows the listing `l`, and its files the counts of the plan. */
    ghost predicate IsPlanned(s: FileList, l: Listing, p: Plan)
      reads s, s.items
    {
      && s.name == l.name && s.useGrandInclude == l.permitted && |s.items| == |l.files|
      && forall i :: 0 <= i < |s.items| ==>
           s.items[i].name == l.files[i]
           && HfileIsInGrandInclude(s.items[i], s) == InGrand(p, l.files[i], l.permitted)
    }

    lemma ListingAt(p: Plan, k: nat)
      requires HasPlan(p) && k < |p.listings|
      ensures IsPlanned(indivIncludes.items[k], p.listings[k], p)
      ensures forall h :: h in indivIncludes.items[k].items ==> h in Files()
    {
      assert IsListing(indivIncludes.items[k], p.listings[k], Files());
    }

    /** The lines of the include file of one outer file. */
    method InclLines(s: FileList, ghost l: Listing, ghost p: Plan) returns (lines: seq<string>)
      requires IsPlanned(s, l, p)
      ensures Text(lines) == InclContent(p, l)
    {
      InclSoFarEnds(p, l);
      lines := [];
      if s.useGrandInclude {
        lines := [IncludeLine(GI_NAME)];
      }
      var i := 0;
      while i < |s.items|
        invariant i <= |s.items| && lines == InclSoFar(p, l, i)
      {
        InclSoFarStep(p, l, i);
        if !HfileIsInGrandInclude(s.items[i], s) {
          lines := lines + [IncludeLine(s.items[i].name)];
        }
        i := i + 1;
      }
    }

    method PutInclFile(k: nat, fs: FileSystem, ghost p: Plan) returns (r: Status)
      requires HasPlan(p) && k < |p.listings|
      modifies fs
      ensures HasPlan(p)
      ensures r.Fatal? <==> !InclNameFits(p.listings[k].name)
      ensures r == Going ==> fs.disk == PutListing(old(fs.disk), p, p.listings[k])
    {
      var l := indivIncludes.items[k];
      ListingAt(p, k);
      if !InclNameFits(l.name) {
        return Fatal(l.name + " is too long");
      }
      var lines := InclLines(l, p.listings[k], p);
      fs.disk := fs.disk[InclPath(l.name) := Text(lines)];
      return Going;
    }

    method WriteIndividualIncludes(fs: FileSystem, ghost p: Plan) returns (r: Status)
      requires HasPlan(p)
      modifies fs
      ensures HasPlan(p)
      ensures r == Going <==> AllFit(p.listings, |p.listings|)
      ensures r == Going ==> fs.disk == PutListings(old(fs.disk), p, |p.listings|)
    {
      r := Going;
      var i := 0;
      while i < |indivIncludes.items|
        invariant i <= |p.listings| == |indivIncludes.items| && HasPlan(p) && r == Going
        invariant AllFit(p.listings, i)
        invariant fs.disk == PutListings(old(fs.disk), p, i)
      {
        r := PutNext(i, fs, p, old(fs.disk));
        if r.Fatal? { return; }
        i := i + 1;
      }
    }

    /** One turn of it, with the disk as it was before the first in `was`. */
    method PutNext(k: nat, fs: FileSystem, ghost p: Plan, ghost was: Disk) returns (r: Status)
      requires HasPlan(p) && k < |p.listings| && fs.disk == PutListings(was, p, k)
      modifies fs
      ensures HasPlan(p)
      ensures r.Fatal? <==> !InclNameFits(p.listings[k].name)
      ensures r == Going ==> fs.disk == PutListings(was, p, k + 1)
    {
      r := PutInclFile(k, fs, p);
    }

    /** The two lists hold files of the same names and, given the databases, leave them to the grand file alike. */
    ghost predicate AreAlike(mine: FileList, his: FileList, previous: Database?)
      reads this, mine, his, previous, mine.items, his.items
    {
      && (mine.platformDependentInclude.Some? && his.platformDependentInclude.Some? ==>
            mine.platformDependentInclude == his.platformDependentInclude)
      && Names(mine.items) == Names(his.items)
      && (previous != null ==> forall i :: 0 <= i < |mine.items| == |his.items| ==>
            HfileIsInGrandInclude(mine.items[i], mine) == previous.HfileIsInGrandInclude(his.items[i], his))
    }

    /** Compares name by name; `previous` is null where the database is not looked at. */
    method CompareLists(mine: FileList, his: FileList, previous: Database?) returns (same: bool)
      ensures same <==> AreAlike(mine, his, previous)
    {
      if mine.platformDependentInclude.Some? && his.platformDependentInclude.Some?
         && mine.platformDependentInclude != his.platformDependentInclude {
        return false;
      }
      var i := 0;
      while true
        invariant i <= |mine.items| && i <= |his.items|
        invariant forall k :: 0 <= k < i ==> Names(mine.items)[k] == Names(his.items)[k]
        invariant previous != null ==> forall k :: 0 <= k < i ==>
          HfileIsInGrandInclude(mine.items[k], mine) == previous.HfileIsInGrandInclude(his.items[k], his)
        decreases |mine.items| - i
      {
        if (i == |mine.items|) != (i == |his.items|) { return false; }
        if i == |mine.items| { return true; }
        if mine.items[i].name != his.items[i].name {
          assert Names(mine.items)[i] != Names(his.items)[i];
          return false;
        }
        if previous != null
           && HfileIsInGrandInclude(mine.items[i], mine) != previous.HfileIsInGrandInclude(his.items[i], his) {
          return false;
        }
        i := i + 1;
      }
    }

    method WriteIndividualChanges(previous: Database, fs: FileSystem, ghost p: Plan, ghost q: Plan) returns (r: Status)
      requires HasPlan(p) && previous.HasPlan(q) && |p.listings| == |q.listings|
      modifies fs
      ensures HasPlan(p) && previous.HasPlan(q)
      ensures r.Fatal? ==> !AllFit(p.listings, |p.listings|)
      ensures r == Going ==> fs.disk == PutChanged(old(fs.disk), p, q, |p.listings|)
    {
      r := Going;
      var i := 0;
      while i < |indivIncludes.items|
        invariant i <= |p.listings| == |indivIncludes.items| && r == Going
        invariant HasPlan(p) && previous.HasPlan(q)
        invariant fs.disk == PutChanged(old(fs.disk), p, q, i)
      {
        r := WriteIfChanged(previous, i, fs, p, q, old(fs.disk));
        if r.Fatal? { return; }
        i := i + 1;
      }
    }

    /** One turn of it, with the disk as it was before the first in `was`. */
    method WriteIfChanged(previous: Database, k: nat, fs: FileSystem, ghost p: Plan, ghost q: Plan, ghost was: Disk)
      returns (r: Status)
      requires HasPlan(p) && previous.HasPlan(q) && k < |p.listings| == |q.listings|
      requires fs.disk == PutChanged(was, p, q, k)
      modifies fs
      ensures HasPlan(p) && previous.HasPlan(q)
      ensures r == Going <==> Unchanged(p, p.listings[k], q, q.listings[k]) || InclNameFits(p.listings[k].name)
      ensures r == Going ==> fs.disk == PutChanged(was, p, q, k + 1)
    {
      r := Going;
      var same := CompareListings(previous, k, p, q);
      if !same {
        r := PutInclFile(k, fs, p);
      }
    }

    /** The comparison of the lists of one outer file, with both databases at hand. */
    method CompareListings(previous: Database, k: nat, ghost p: Plan, ghost q: Plan) returns (same: bool)
      requires HasPlan(p) && previous.HasPlan(q) && k < |p.listings| == |q.listings|
      ensures same <==> Unchanged(p, p.listings[k], q, q.listings[k])
    {
      ListingAt(p, k);
      previous.ListingAt(q, k);
      var mine, his := indivIncludes.items[k], previous.indivIncludes.items[k];
      assert IsListing(mine, p.listings[k], Files()) && IsListing(his, q.listings[k], previous.Files());
      same := CompareLists(mine, his, previous);
    }

    /** The grand list shows the plan: names, counts and platform-dependent includees. */
    ghost predicate ShowsGrand(p: Plan)
      reads grandInclude, grandInclude.items
    {
      && |grandInclude.items| == |p.grand|
      && forall i :: 0 <= i < |p.grand| ==> IsHeader(grandInclude.items[i], p.grand[i], p)
    }

    ghost predicate IsHeader(h: FileList, f: File, p: Plan)
      reads h
    {
      && h.name == f && (h.count >= threshold <==> Qualifies(p, f))
      && Names(h.platformDependentIncludees) == PdsOf(p, f)
    }

    lemma PlanShowsGrand(p: Plan)
      requires HasPlan(p)
      ensures ShowsGrand(p)
    {
      forall i | 0 <= i < |p.grand| ensures IsHeader(grandInclude.items[i], p.grand[i], p) {
        assert Names(grandInclude.items)[i] == p.grand[i];
        assert grandInclude.items[i] in Files();
      }
    }

    /** The lines of the grand include file; the headers written are counted. */
    method GrandLines(ghost p: Plan) returns (lines: seq<string>)
      requires ShowsGrand(p)
      modifies this`nPrecompiledFiles
      ensures Text(lines) == GrandContent(p)
      ensures nPrecompiledFiles == old(nPrecompiledFiles) + |GrandFiles(p)|
    {
      GrandSoFarEnds(p);
      lines := GrandHead();
      var i := 0;
      while i < |grandInclude.items|
        invariant i <= |p.grand| == |grandInclude.items| && ShowsGrand(p)
        invariant lines == GrandSoFar(p, i)
        invariant nPrecompiledFiles == old(nPrecompiledFiles) + |QualifiedSoFar(p, i)|
      {
        GrandSoFarStep(p, i);
        var line := GrandLine(i, p);
        lines := lines + line;
        i := i + 1;
      }
      lines := lines + GrandTail();
    }

    /** The line for one file of the grand list, if it gets one. */
    method GrandLine(i: nat, ghost p: Plan) returns (line: seq<string>)
      requires ShowsGrand(p) && i < |p.grand|
      modifies this`nPrecompiledFiles
      ensures line == if Qualifies(p, p.grand[i]) then [IncludeLine(p.grand[i])] else []
      ensures nPrecompiledFiles == old(nPrecompiledFiles) + |line|
    {
      var h := grandInclude.items[i];
      assert IsHeader(h, p.grand[i], p);
      line := [];
      if h.count >= threshold {
        line := [IncludeLine(h.name)];
        nPrecompiledFiles := nPrecompiledFiles + 1;
      }
    }

    method WriteGrandInclude(fs: FileSystem, ghost p: Plan)
      requires HasPlan(p)
      modifies fs, this`nPrecompiledFiles
      ensures HasPlan(p)
      ensures fs.disk == old(fs.disk)[GI_PATH := GrandContent(p)]
      ensures nPrecompiledFiles == old(nPrecompiledFiles) + |GrandFiles(p)|
    {
      PlanShowsGrand(p);
      var lines := GrandLines(p);
      fs.disk := fs.disk[GI_PATH := Text(lines)];
    }

    // ----- the makefile -----

    /** The name without its suffix; `None` is the abort on a name that has none. */
    static method StemOf(f: File) returns (stem: Option<string>)
      ensures stem == if '.' in f then Some(Stem(f)) else None
    {
      var n := |f|;
      assert f[..n] == f;
      while n == |f| || f[n] != '.'
        invariant 0 <= n <= |f|
        invariant if n < |f| && f[n] == '.' then '.' in f && f[..n] == Stem(f)
                  else ('.' in f <==> '.' in f[..n]) && ('.' in f ==> Stem(f[..n]) == Stem(f))
        decreases n
      {
        if n == 0 {
          return None;
        }
        assert f[..n][..n - 1] == f[..n - 1];
        assert f[..n] == f[..n - 1] + [f[n - 1]];
        n := n - 1;
      }
      stem := Some(f[..n]);
    }

    method PrecompiledWords(ghost p: Plan) returns (words: seq<string>)
      requires ShowsGrand(p)
      ensures words == WithPds(p, GrandFiles(p))
    {
      GrandSoFarEnds(p);
      words := [];
      var i := 0;
      while i < |grandInclude.items|
        invariant i <= |p.grand| == |grandInclude.items| && words == WordsSoFar(p, i)
      {
        WordsSoFarStep(p, i);
        var h := grandInclude.items[i];
        assert IsHeader(h, p.grand[i], p);
        if h.count >= threshold {
          words := words + [h.name] + Names(h.platformDependentIncludees);
        }
        i := i + 1;
      }
    }

    ghost predicate ShowsPds(s: FileList, l: Listing, p: Plan)
      reads s, s.items
    {
      && |s.items| == |l.files|
      && forall i :: 0 <= i < |l.files| ==> Names(s.items[i].platformDependentIncludees) == PdsOf(p, l.files[i])
    }

    lemma PlanShowsPds(p: Plan, k: nat)
      requires HasPlan(p) && k < |p.listings|
      ensures ShowsPds(indivIncludes.items[k], p.listings[k], p)
    {
      var s, l := indivIncludes.items[k], p.listings[k];
      assert IsListing(s, l, Files());
      forall i | 0 <= i < |l.files| ensures Names(s.items[i].platformDependentIncludees) == PdsOf(p, l.files[i]) {
        assert Names(s.items)[i] == l.files[i];
        assert s.items[i] in Files();
      }
    }

    method RuleWords(s: FileList, ghost l: Listing, ghost p: Plan) returns (words: seq<string>)
      requires IsPlanned(s, l, p) && ShowsPds(s, l, p)
      ensures words == WithPds(p, Kept(p, l))
    {
      PrereqsSoFarEnds(p, l);
      words := [];
      var i := 0;
      while i < |s.items|
        invariant i <= |s.items| && words == PrereqsSoFar(p, l, i)
      {
        PrereqsSoFarStep(p, l, i);
        var h := s.items[i];
        if !HfileIsInGrandInclude(h, s) {
          words := words + [h.name] + Names(h.platformDependentIncludees);
        }
        i := i + 1;
      }
    }

    method RuleOf(k: nat, ghost p: Plan) returns (rule: MakeEntry)
      requires HasPlan(p) && k < |p.listings| && '.' in p.listings[k].name
      ensures rule == ObjRule(p, p.listings[k])
    {
      ListingAt(p, k);
      PlanShowsPds(p, k);
      var s := indivIncludes.items[k];
      var stem := StemOf(s.name);
      var words := RuleWords(s, p.listings[k], p);
      rule := Rule([stem.value + ".o", stem.value + ".i"], [s.name, InclName(s.name), GI_COMPILED] + words);
    }

    method Rules(ghost p: Plan) returns (r: Status, rules: seq<MakeEntry>)
      requires HasPlan(p) && HaveSuffixes(p.listings)
      ensures r == Going <==> AllFit(p.listings, |p.listings|)
      ensures r == Going ==> rules == ObjRules(p, p.listings)
    {
      r, rules := Going, [];
      ghost var ls := p.listings;
      var i := 0;
      while i < |indivIncludes.items|
        invariant i <= |ls| == |indivIncludes.items| && rules == ObjRules(p, ls[..i]) && AllFit(ls, i) && r == Going
      {
        ListingAt(p, i);
        ObjsSnoc(p, ls, i);
        var name := indivIncludes.items[i].name;
        if !InclNameFits(name) {
          r := Fatal(name + " is too long");
          return;
        }
        var rule := RuleOf(i, p);
        rules := rules + [rule];
        i := i + 1;
      }
      assert ls[..i] == ls;
    }

    method ObjFileWords(ghost p: Plan) returns (words: seq<string>)
      requires HasPlan(p) && HaveSuffixes(p.listings)
      ensures words == ObjFiles(p.listings)
    {
      words := [];
      ghost var ls := p.listings;
      var i := 0;
      while i < |outerFiles.items|
        invariant i <= |ls| == |outerFiles.items| && words == ObjFiles(ls[..i])
      {
        ObjsSnoc(p, ls, i);
        var stem := StemOf(outerFiles.items[i].name);
        words := words + [stem.value + ".o"];
        i := i + 1;
      }
      assert ls[..i] == ls;
    }

    method MakefileOf(ghost p: Plan) returns (r: Status, entries: seq<MakeEntry>)
      requires HasPlan(p) && ShowsGrand(p) && HaveSuffixes(p.listings)
      ensures r == Going <==> AllFit(p.listings, |p.listings|)
      ensures r == Going ==> entries == MakeEntries(p, nPrecompiledFiles)
    {
      var objs := ObjFileWords(p);
      var variables, last := [], [];
      if nPrecompiledFiles > 0 {
        var words := PrecompiledWords(p);
        variables := [Variable(PRECOMPILED, words)];
        last := [Rule([GI_COMPILED], [Reference(PRECOMPILED)])];
      }
      var rules;
      r, rules := Rules(p);
      entries := [Variable("Obj_Files", objs)] + variables + rules + last;
    }

    method WriteGrandUnixMakefile(fs: FileSystem, ghost p: Plan) returns (r: Status)
      requires HasPlan(p) && HaveSuffixes(p.listings)
      modifies fs
      ensures HasPlan(p)
      ensures r == Going <==> AllFit(p.listings, |p.listings|)
      ensures r == Going ==> fs.disk == old(fs.disk)[GD_PATH := Makefile(MakeEntries(p, nPrecompiledFiles))]
    {
      PlanShowsGrand(p);
      var entries;
      r, entries := MakefileOf(p);
      if r.Fatal? { return; }
      fs.disk := fs.disk[GD_PATH := Makefile(entries)];
    }

    /** Everything is written anew. */
    method Put(fs: FileSystem, ghost p: Plan) returns (r: Status)
      requires HasPlan(p) && HaveSuffixes(p.listings) && nPrecompiledFiles == 0
      modifies fs, this`nPrecompiledFiles
      ensures HasPlan(p)
      ensures r == Going <==> AllFit(p.listings, |p.listings|)
      ensures r == Going ==> fs.disk == PutAll(old(fs.disk), p)
    {
      r := WriteIndividualIncludes(fs, p);
      if r.Fatal? { return; }
      WriteGrandInclude(fs, p);
      r := WriteGrandUnixMakefile(fs, p);
    }

    /** Only what changed since `previous` is written, if the outer files and the grand include list are as before. */
    method PutDiffs(previous: Database, fs: FileSystem, ghost p: Plan, ghost q: Plan) returns (r: Status)
      requires HasPlan(p) && previous.HasPlan(q) && previous != this
      requires HaveSuffixes(p.listings) && nPrecompiledFiles == 0
      modifies fs, this`nPrecompiledFiles
      ensures HasPlan(p) && previous.HasPlan(q)
      ensures r == Going <==> AllFit(p.listings, |p.listings|)
      ensures r == Going ==> fs.disk == Incremental.PutDiffs(old(fs.disk), p, q)
    {
      var short := IsShortRun(previous, p, q);
      if !short {
        r := Put(fs, p);
      } else {
        r := PutChanges(previous, fs, p, q);
      }
    }

    /** The short run: nothing is counted as precompiled in it. */
    method PutChanges(previous: Database, fs: FileSystem, ghost p: Plan, ghost q: Plan) returns (r: Status)
      requires HasPlan(p) && previous.HasPlan(q) && |p.listings| == |q.listings|
      requires HaveSuffixes(p.listings) && nPrecompiledFiles == 0
      modifies fs
      ensures HasPlan(p) && previous.HasPlan(q)
      ensures r == Going <==> AllFit(p.listings, |p.listings|)
      ensures var entries := MakeEntries(p, 0);
        r == Going ==> fs.disk == PutChanged(old(fs.disk), p, q, |p.listings|)[GD_PATH := Makefile(entries)]
    {
      r := WriteIndividualChanges(previous, fs, p, q);
      if r.Fatal? { return; }
      r := WriteGrandUnixMakefile(fs, p);
    }

    method IsShortRun(previous: Database, ghost p: Plan, ghost q: Plan) returns (short: bool)
      requires HasPlan(p) && previous.HasPlan(q)
      ensures short <==> ShortRun(p, q)
    {
      assert forall k :: 0 <= k < |p.listings| ==> Names(indivIncludes.items)[k] == p.listings[k].name;
      assert forall k :: 0 <= k < |q.listings| ==> Names(previous.indivIncludes.items)[k] == q.listings[k].name;
      var sameOuters := CompareLists(indivIncludes, previous.indivIncludes, null);
      var sameGrand := CompareLists(grandInclude, previous.grandInclude, null);
      short := sameOuters && sameGrand;
    }
  }
}
