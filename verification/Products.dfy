/**
 * What a run leaves on the disk, word by word: each file that it writes, in terms of the graph that was read,
 * with no flag, list object or plan in between.
 */
module Products {
  import opened Seqs
  import opened IncludeGraph
  import opened IncludeDb
  import opened IncludeDbProofs
  import opened Reading
  import opened Closures
  import opened Unfolding
  import opened Planning
  import opened Computing
  import opened Guarantees
  import opened Outputs
  import opened Incremental
  import opened Generation
  import opened Refinement
  import opened Compiling

  // ----- headers, by the graph -----

  /** All that the outer file `c` includes, written out, each file at its first mention. */
  ghost function Needs(d: Db, c: File): seq<File>
    requires Closed(d.includes) && c in d.includes
  {
    assert forall x :: x in d.includes[c] ==> x in d.includes;
    Distinct(UnfoldAll(d.includes, {}, d.includes[c]))
  }

  /** What the outer files `cs` need that may use the grand include file, one after the other. */
  ghost function AllNeeds(d: Db, cs: seq<File>): seq<File>
    requires Closed(d.includes) && forall c :: c in cs ==> c in d.includes
  {
    if cs == [] then [] else (if cs[0] in d.refuses then [] else Needs(d, cs[0])) + AllNeeds(d, cs[1..])
  }

  /** So many of them need `x` that it goes to the grand include file. */
  ghost predicate Popular(d: Db, threshold: int, x: File)
    requires Sound(d)
  {
    |Users(d, x)| >= threshold
  }

  ghost function GrandHeaders(d: Db, threshold: int): seq<File>
    requires Sound(d)
  {
    Filter(Distinct(AllNeeds(d, d.outers)), x => Popular(d, threshold, x))
  }

  ghost function OwnHeaders(d: Db, threshold: int, c: File): seq<File>
    requires Sound(d) && c in d.outers
  {
    Filter(Needs(d, c), x => c in d.refuses || !Popular(d, threshold, x))
  }

  lemma ListingNeeds(d: Db, c: File)
    requires Sound(d) && !Cyclic(d) && c in d.outers
    ensures ListingOf(d, c) == Listing(c, c !in d.refuses, Needs(d, c))
  {
    ClosureCorrect(d.includes, c);
    ClosureIsUnfolding(d.includes, c);
  }

  lemma {:induction false} PoolIsNeeds(d: Db, ls: seq<Listing>, cs: seq<File>)
    requires Sound(d) && !Cyclic(d) && forall c :: c in cs ==> c in d.outers
    requires |ls| == |cs| && forall k :: 0 <= k < |cs| ==> ls[k] == ListingOf(d, cs[k])
    ensures Pool(ls) == AllNeeds(d, cs)
    decreases |ls|
  {
    if ls != [] {
      ListingNeeds(d, cs[0]);
      PoolIsNeeds(d, ls[1..], cs[1..]);
    }
  }

  lemma PlanIsNeeds(d: Db, threshold: int)
    requires Sound(d) && !Cyclic(d)
    ensures var p := PlanOf(d, threshold);
      && p.grand == Distinct(AllNeeds(d, d.outers))
      && (forall x :: Qualifies(p, x) <==> Popular(d, threshold, x))
  {
    ListingsAreClosures(d);
    GrandIsPool(d.includes, Listings(d));
    PoolIsNeeds(d, Listings(d), d.outers);
    forall x { CountsAreExact(d, x); }
  }

  /** The plan moves and keeps what the graph says. */
  lemma PlannedHeaders(d: Db, threshold: int, k: nat)
    requires Sound(d) && !Cyclic(d)
    ensures var p := PlanOf(d, threshold);
      && GrandFiles(p) == GrandHeaders(d, threshold)
      && (k < |d.outers| ==> Kept(p, p.listings[k]) == OwnHeaders(d, threshold, d.outers[k]))
  {
    var p := PlanOf(d, threshold);
    PlanIsNeeds(d, threshold);
    FilterAlike(p.grand, ForGrand(p), x => Popular(d, threshold, x));
    if k < |d.outers| {
      var c, l := d.outers[k], p.listings[k];
      ListingNeeds(d, c);
      FilterAlike(l.files, NotInGrand(p, l.permitted), x => c in d.refuses || !Popular(d, threshold, x));
    }
  }

  /** Which headers these are. */
  lemma WhichHeaders(d: Db, threshold: int, x: File)
    requires Sound(d) && !Cyclic(d)
    ensures x in GrandHeaders(d, threshold) <==> Users(d, x) != {} && |Users(d, x)| >= threshold
    ensures forall c :: c in d.outers ==> (x in OwnHeaders(d, threshold, c)
      <==> Reaches(d.includes, c, x) && (c in d.refuses || |Users(d, x)| < threshold))
  {
    PlanIsGood(d, threshold);
    PlanIsNeeds(d, threshold);
    var p := PlanOf(d, threshold);
    FilterElems(Distinct(AllNeeds(d, d.outers)), x => Popular(d, threshold, x));
    CountIsCardinality(p.listings, x);
    CountsAreExact(d, x);
    NeededIsUsed(d, x);
    forall c | c in d.outers
      ensures x in OwnHeaders(d, threshold, c)
        <==> Reaches(d.includes, c, x) && (c in d.refuses || |Users(d, x)| < threshold)
    {
      ClosureCorrect(d.includes, c);
      ClosureIsUnfolding(d.includes, c);
      FilterElems(Needs(d, c), x => c in d.refuses || !Popular(d, threshold, x));
    }
  }

  lemma NeededIsUsed(d: Db, x: File)
    requires Sound(d) && !Cyclic(d)
    ensures Needed(Listings(d), x) <==> Users(d, x) != {}
  {
    var ls := Listings(d);
    ListingsAreClosures(d);
    if l :| l in ls && l.permitted && x in l.files {
      var k :| 0 <= k < |ls| && ls[k] == l;
      assert k in Users(d, x);
    }
    if k :| k in Users(d, x) {
      assert ls[k] in ls;
    }
  }

  // ----- the text -----

  /** A line for each header. */
  ghost predicate AreIncludeLines(lines: seq<string>, hs: seq<File>) {
    |lines| == |hs| && forall i :: 0 <= i < |hs| ==> lines[i] == "# include \"" + hs[i] + "\""
  }

  lemma {:induction false} IncludeLinesAre(hs: seq<File>)
    ensures AreIncludeLines(IncludeLines(hs), hs)
  {
    if hs != [] {
      IncludeLinesAre(hs[..|hs| - 1]);
    }
  }

  lemma WrittenAt(disk: Disk, es: seq<Entry>, threshold: int, k: nat)
    requires Computable(es)
    ensures var p, full := PlanFor(es, threshold), AfterAbsolute(disk, es, threshold);
      && HoldsGrand(full, p) && HoldsMakefile(full, p)
      && (k < |p.listings| ==> HoldsListing(full, p, p.listings[k]))
  {
    PlanForIsGood(es, threshold);
    PutAllShared(PutPds(disk, es), PlanFor(es, threshold));
    PutAllHolds(PutPds(disk, es), PlanFor(es, threshold));
  }

  lemma InclPathIs(f: File)
    ensures InclPath(f) == "incls/_" + f + ".incl"
  {
    var a, b := InclPath(f), "incls/_" + f + ".incl";
    assert |a| == |b| == |f| + 12;
    assert a[..7] == "incls/_" == b[..7] && a[7..7 + |f|] == f == b[7..7 + |f|];
    assert a[7 + |f|..] == ".incl" == b[7 + |f|..];
    assert a == a[..7] + a[7..7 + |f|] + a[7 + |f|..] && b == b[..7] + b[7..7 + |f|] + b[7 + |f|..];
  }

  lemma InclLinesAre(p: Plan, l: Listing)
    ensures AreIncludeLines(InclContent(p, l).lines, (if l.permitted then ["_precompiled.hh"] else []) + Kept(p, l))
  {
    IncludeLinesAre(Kept(p, l));
  }

  /** The include file of an outer file. */
  lemma IncludeFileIs(disk: Disk, es: seq<Entry>, threshold: int, k: nat)
    requires Computable(es) && k < |Read(es).value.outers|
    ensures var d, full := Read(es).value, AfterAbsolute(disk, es, threshold);
      var c := d.outers[k];
      var path, first := "incls/_" + c + ".incl", if c in d.refuses then [] else ["_precompiled.hh"];
      path in full && full[path].Text? && AreIncludeLines(full[path].lines, first + OwnHeaders(d, threshold, c))
  {
    var d, p := Read(es).value, PlanFor(es, threshold);
    var c, l := d.outers[k], p.listings[k];
    assert c in d.outers;
    WrittenAt(disk, es, threshold, k);
    PlannedHeaders(d, threshold, k);
    ListingNeeds(d, c);
    InclLinesAre(p, l);
    InclPathIs(c);
  }

  /** The grand include file. */
  lemma GrandFileIs(disk: Disk, es: seq<Entry>, threshold: int)
    requires Computable(es)
    ensures var full, path := AfterAbsolute(disk, es, threshold), "incls/_precompiled.hh";
      && path in full && full[path].Text?
      && var lines := full[path].lines;
         && |lines| >= 5 && lines[0] == "# ifdef __cplusplus" && lines[1] == ""
         && AreIncludeLines(lines[2..|lines| - 3], GrandHeaders(Read(es).value, threshold))
         && lines[|lines| - 3..] == ["", "", "# endif // __cplusplus"]
  {
    var d, p := Read(es).value, PlanFor(es, threshold);
    WrittenAt(disk, es, threshold, 0);
    PlannedHeaders(d, threshold, |d.outers|);
    IncludeLinesAre(GrandFiles(p));
    var body := IncludeLines(GrandFiles(p));
    assert (GrandHead() + body + GrandTail())[2..|body| + 2] == body;
  }

  /** A platform-dependent include, by the last line of four words that names it, if no outer file bears its name. */
  lemma PdFileIs(disk: Disk, es: seq<Entry>, threshold: int, i: nat)
    requires Computable(es) && i < |es| && es[i].Quad? && es[i].fooPd !in Read(es).value.outers
    requires forall j :: i < j < |es| && es[j].Quad? ==> es[j].fooPd != es[i].fooPd
    ensures var full, path := AfterAbsolute(disk, es, threshold), "incls/_" + es[i].fooPd + ".incl";
      path in full && full[path] == Text(["# include \"" + es[i].fooArch + "\""])
  {
    var p, f := PlanFor(es, threshold), es[i].fooPd;
    InclPathIs(f);
    LastPdIs(es, i);
    PutPdsAt(disk, es, f);
    forall l | l in p.listings ensures InclPath(f) != InclPath(l.name) {
      var k :| 0 <= k < |p.listings| && p.listings[k] == l;
      assert l.name == Read(es).value.outers[k];
      InclPathsDiffer(f, l.name);
    }
    PutElsewhere(PutPds(disk, es), p, p, f);
  }

  lemma {:induction false} LastPdIs(es: seq<Entry>, i: nat)
    requires i < |es| && es[i].Quad?
    requires forall j :: i < j < |es| && es[j].Quad? ==> es[j].fooPd != es[i].fooPd
    ensures LastPd(es, es[i].fooPd) == Some(es[i].fooArch)
    decreases |es|
  {
    if i < |es| - 1 {
      LastPdIs(es[..|es| - 1], i);
    }
  }

  lemma {:induction false} LastPdSome(es: seq<Entry>, f: File)
    ensures LastPd(es, f).Some? <==> exists e :: e in es && e.Quad? && e.fooPd == f
  {
    if es != [] {
      var init, last := es[..|es| - 1], es[|es| - 1];
      LastPdSome(init, f);
      assert forall e :: e in es <==> e in init || e == last by { assert es == init + [last]; }
    }
  }

  /** The include file of an outer file, or a platform-dependent include of the entries. */
  ghost predicate IsIncludePath(es: seq<Entry>, path: string)
    requires Read(es).Some?
  {
    || (exists c :: c in Read(es).value.outers && path == "incls/_" + c + ".incl")
    || (exists e :: e in es && e.Quad? && path == "incls/_" + e.fooPd + ".incl")
  }

  /** A run from scratch writes these files, and no others. */
  lemma FilesWritten(es: seq<Entry>, threshold: int, path: string)
    requires Computable(es)
    ensures path in Written(es, threshold) <==>
      path == "incls/_precompiled.hh" || path == "Dependencies.hh" || IsIncludePath(es, path)
  {
    WrittenHolds(es, threshold);
    if path in Written(es, threshold) {
      WrittenPaths(es, threshold, path);
      if path != GI_PATH && path != GD_PATH {
        WrittenIsNamed(es, threshold, path);
      }
    }
    if IsIncludePath(es, path) {
      NamedIsWritten(es, threshold, path);
    }
  }

  lemma WrittenIsNamed(es: seq<Entry>, threshold: int, path: string)
    requires Computable(es)
    requires var ls := PlanFor(es, threshold).listings;
      || (exists k :: 0 <= k < |ls| && path == InclPath(ls[k].name))
      || (exists f :: path == InclPath(f) && LastPd(es, f).Some?)
    ensures IsIncludePath(es, path)
  {
    var d, ls := Read(es).value, PlanFor(es, threshold).listings;
    if k :| 0 <= k < |ls| && path == InclPath(ls[k].name) {
      InclPathIs(d.outers[k]);
      assert d.outers[k] in d.outers && ls[k].name == d.outers[k];
    } else {
      var f :| path == InclPath(f) && LastPd(es, f).Some?;
      InclPathIs(f);
      LastPdSome(es, f);
    }
  }

  lemma NamedIsWritten(es: seq<Entry>, threshold: int, path: string)
    requires Computable(es) && IsIncludePath(es, path)
    ensures path in Written(es, threshold)
  {
    var d, p := Read(es).value, PlanFor(es, threshold);
    if c :| c in d.outers && path == "incls/_" + c + ".incl" {
      var k :| 0 <= k < |d.outers| && d.outers[k] == c;
      InclPathIs(c);
      WrittenAt(map[], es, threshold, k);
    } else {
      var e :| e in es && e.Quad? && path == "incls/_" + e.fooPd + ".incl";
      InclPathIs(e.fooPd);
      LastPdSome(es, e.fooPd);
      PutPdsAt(map[], es, e.fooPd);
      StaysWritten(PutPds(map[], es), p, path);
    }
  }

  lemma StaysWritten(disk: Disk, p: Plan, path: string)
    requires path in disk
    ensures path in PutAll(disk, p)
  {
    ListingsStay(disk, p, |p.listings|, path);
  }

  lemma {:induction false} ListingsStay(disk: Disk, p: Plan, n: nat, path: string)
    requires n <= |p.listings| && path in disk
    ensures path in PutListings(disk, p, n)
  {
    if n > 0 {
      ListingsStay(disk, p, n - 1, path);
    }
  }

  /** When a run comes to its end: no line is refused, no outer file reaches a cycle, and no outer file name is too long. */
  lemma RunEnds(es: seq<Entry>, threshold: int)
    ensures Writable(es, threshold) <==>
      && Read(es).Some?
      && forall c :: c in Read(es).value.outers ==> !MeetsCycle(Read(es).value.includes, c) && |c| <= 249
  {
    ReadIsSound(es);
    if Computable(es) {
      var d, ls := Read(es).value, PlanFor(es, threshold).listings;
      forall k | 0 <= k < |ls| ensures InclNameFits(ls[k].name) <==> |d.outers[k]| <= 249 {}
      assert forall k :: 0 <= k < |d.outers| ==> d.outers[k] in d.outers;
    }
  }

  // ----- the makefile -----

  /** `f` is `stem`, a dot and what follows the last dot. */
  ghost predicate IsStem(stem: string, f: File) {
    stem + "." <= f && '.' !in f[|stem| + 1..]
  }

  lemma StemIs(f: File)
    requires '.' in f
    ensures IsStem(Stem(f), f)
  {
    StemEndsAtLastDot(f);
    assert f[..|Stem(f)| + 1] == Stem(f) + ".";
  }

  /** `word` is the object file of `f`, and some rule makes it from `f`. */
  ghost predicate IsObject(es: seq<MakeEntry>, word: string, f: File) {
    && (exists stem :: IsStem(stem, f) && word == stem + ".o")
    && exists r :: r in es && r.Rule? && word in r.targets && f in r.prerequisites
  }

  /** The first entry, and no other, is the list of object files, one for each of `ls` in their order. */
  ghost predicate ListsObjects(es: seq<MakeEntry>, ls: seq<Listing>) {
    && es != [] && es[0].Variable? && es[0].name == "Obj_Files"
    && (forall j :: 0 < j < |es| && es[j].Variable? ==> es[j].name != "Obj_Files")
    && |es[0].words| == |ls| && forall k :: 0 <= k < |ls| ==> IsObject(es, es[0].words[k], ls[k].name)
  }

  lemma {:induction false} ObjFilesAre(ls: seq<Listing>)
    ensures |ObjFiles(ls)| == |ls| && forall k :: 0 <= k < |ls| ==> ObjFiles(ls)[k] == ObjFile(ls[k].name)
  {
    if ls != [] {
      ObjFilesAre(ls[..|ls| - 1]);
    }
  }

  /** Whatever was counted, the makefile has one list of object files, and a rule for each. */
  lemma ObjectsAreListed(p: Plan, n: int)
    requires HaveSuffixes(p.listings)
    ensures ListsObjects(MakeEntries(p, n), p.listings)
  {
    var es, ls := MakeEntries(p, n), p.listings;
    ObjFilesAre(ls);
    assert es[0] == Variable("Obj_Files", ObjFiles(ls));
    forall k | 0 <= k < |ls| ensures IsObject(es, es[0].words[k], ls[k].name) {
      ObjRulesHold(p, ls, ls[k]);
      StemIs(ls[k].name);
      assert ObjRule(p, ls[k]) in es;
    }
    forall j | 0 < j < |es| && es[j].Variable? ensures es[j].name != "Obj_Files" {
      assert "Obj_Files"[0] != PRECOMPILED[0];
      if es[j] in ObjRules(p, ls) {
        ObjRulesAre(p, ls, es[j]);
      }
    }
  }

  /** `x` is one of the headers `hs`, or a platform-dependent includee of one. */
  ghost predicate IsDependency(d: Db, hs: seq<File>, x: File) {
    exists h :: h in hs && (x == h || (h in d.pds && x in d.pds[h]))
  }

  /** `r` makes the object file and the assembly of `c`, which depend on all that compiling it opens. */
  ghost predicate IsRuleOf(d: Db, threshold: int, c: File, r: MakeEntry)
    requires Sound(d) && c in d.outers
  {
    exists stem, words :: IsStem(stem, c)
      && r == Rule([stem + ".o", stem + ".i"], [c, "_" + c + ".incl", "_precompiled.hh.gch"] + words)
      && forall x :: x in words <==> IsDependency(d, OwnHeaders(d, threshold, c), x)
  }

  /** `v` names what was moved to the grand include file. */
  ghost predicate IsPrecompiled(d: Db, threshold: int, v: MakeEntry)
    requires Sound(d)
  {
    && v.Variable? && v.name == "Precompiled_Files"
    && forall x :: x in v.words <==> IsDependency(d, GrandHeaders(d, threshold), x)
  }

  /**
   * The makefile of the database `d`: the object files, a rule for each outer file in their order, and if headers
   * are counted as precompiled, a variable that names them before those rules and one rule behind that uses it.
   */
  ghost predicate IsMakefile(d: Db, threshold: int, counted: bool, content: Content)
    requires Sound(d)
  {
    && content.Makefile?
    && var es, n, v := content.entries, |d.outers|, if counted then 1 else 0;
       && |es| == 1 + v + n + v && ListsObjects(es, Listings(d))
       && (forall k :: 0 <= k < n ==> IsRuleOf(d, threshold, d.outers[k], es[1 + v + k]))
       && (counted ==> IsPrecompiled(d, threshold, es[1]))
       && (counted ==> es[|es| - 1] == Rule(["_precompiled.hh.gch"], ["$(Precompiled_Files)"]))
  }

  lemma WithPdsStand(d: Db, threshold: int, hs: seq<File>, x: File)
    requires Sound(d)
    ensures x in WithPds(PlanOf(d, threshold), hs) <==> IsDependency(d, hs, x)
  {
    WithPdsElems(PlanOf(d, threshold), hs, x);
  }

  lemma RuleOfOuter(d: Db, threshold: int, k: nat)
    requires Sound(d) && !Cyclic(d) && k < |d.outers| && '.' in d.outers[k]
    ensures var p := PlanOf(d, threshold);
      IsRuleOf(d, threshold, d.outers[k], ObjRule(p, p.listings[k]))
  {
    var p, c := PlanOf(d, threshold), d.outers[k];
    PlannedHeaders(d, threshold, k);
    StemIs(c);
    var hs := Kept(p, p.listings[k]);
    forall x { WithPdsStand(d, threshold, hs, x); }
    assert ObjRule(p, p.listings[k]) == Rule([Stem(c) + ".o", Stem(c) + ".i"],
                                             [c, "_" + c + ".incl", "_precompiled.hh.gch"] + WithPds(p, hs));
  }

  lemma PrecompiledIs(d: Db, threshold: int)
    requires Sound(d) && !Cyclic(d)
    ensures IsPrecompiled(d, threshold, PrecompiledVariable(PlanOf(d, threshold)))
    ensures PrecompiledRule() == Rule(["_precompiled.hh.gch"], ["$(Precompiled_Files)"])
  {
    PlannedHeaders(d, threshold, |d.outers|);
    forall x { WithPdsStand(d, threshold, GrandHeaders(d, threshold), x); }
    assert "$(" + "Precompiled_Files" + ")" == "$(Precompiled_Files)";
  }

  lemma {:induction false} ObjRulesAt(p: Plan, ls: seq<Listing>, k: nat)
    requires k < |ls|
    ensures |ObjRules(p, ls)| == |ls| && ObjRules(p, ls)[k] == ObjRule(p, ls[k])
  {
    if |ls| > 1 {
      ObjRulesAt(p, ls[..|ls| - 1], if k == |ls| - 1 then 0 else k);
    }
  }

  lemma {:induction false} ObjRulesAreAsMany(p: Plan, ls: seq<Listing>)
    ensures |ObjRules(p, ls)| == |ls|
  {
    if ls != [] {
      ObjRulesAreAsMany(p, ls[..|ls| - 1]);
    }
  }

  /** Where each entry stands. */
  lemma EntryPlaces(p: Plan, n: int, k: nat)
    ensures var es, v, ls := MakeEntries(p, n), if n > 0 then 1 else 0, p.listings;
      && |es| == 1 + v + |ls| + v
      && (k < |ls| ==> es[1 + v + k] == ObjRule(p, ls[k]))
      && (n > 0 ==> es[1] == PrecompiledVariable(p) && es[|es| - 1] == PrecompiledRule())
  {
    ObjRulesAreAsMany(p, p.listings);
    if k < |p.listings| {
      ObjRulesAt(p, p.listings, k);
    }
  }

  lemma RuleStands(d: Db, threshold: int, n: int, k: nat)
    requires Sound(d) && !Cyclic(d) && k < |d.outers| && '.' in d.outers[k]
    ensures var es, v := MakeEntries(PlanOf(d, threshold), n), if n > 0 then 1 else 0;
      1 + v + k < |es| && d.outers[k] in d.outers && IsRuleOf(d, threshold, d.outers[k], es[1 + v + k])
  {
    EntryPlaces(PlanOf(d, threshold), n, k);
    RuleOfOuter(d, threshold, k);
  }

  /** The entries made for the plan are the makefile of the database. */
  lemma EntriesAre(d: Db, threshold: int, n: int)
    requires Sound(d) && !Cyclic(d) && forall c :: c in d.outers ==> '.' in c
    ensures IsMakefile(d, threshold, n > 0, Makefile(MakeEntries(PlanOf(d, threshold), n)))
  {
    var p := PlanOf(d, threshold);
    assert forall k :: 0 <= k < |p.listings| ==> p.listings[k].name == d.outers[k] && d.outers[k] in d.outers;
    ObjectsAreListed(p, n);
    PrecompiledIs(d, threshold);
    EntryPlaces(p, n, 0);
    forall k | 0 <= k < |d.outers|
      ensures IsRuleOf(d, threshold, d.outers[k], MakeEntries(p, n)[1 + (if n > 0 then 1 else 0) + k])
    {
      RuleStands(d, threshold, n, k);
    }
  }

  /** The outer files are as before, and what they need. */
  ghost predicate NothingNew(oldD: Db, newD: Db)
    requires Sound(oldD) && Sound(newD)
  {
    newD.outers == oldD.outers && Distinct(AllNeeds(newD, newD.outers)) == Distinct(AllNeeds(oldD, oldD.outers))
  }

  lemma SameNamesIs(oldD: Db, newD: Db)
    requires Sound(oldD) && Sound(newD)
    ensures SameNames(Listings(newD), Listings(oldD)) <==> newD.outers == oldD.outers
  {
    var ls, ms := Listings(newD), Listings(oldD);
    assert forall k :: 0 <= k < |ls| ==> ls[k].name == newD.outers[k];
    assert forall k :: 0 <= k < |ms| ==> ms[k].name == oldD.outers[k];
  }

  /** Exactly then an incremental run is short. */
  lemma ShortRunIs(oldD: Db, newD: Db, threshold: int)
    requires Sound(oldD) && !Cyclic(oldD) && Sound(newD) && !Cyclic(newD)
    ensures ShortRun(PlanOf(newD, threshold), PlanOf(oldD, threshold)) <==> NothingNew(oldD, newD)
  {
    PlanIsNeeds(newD, threshold);
    PlanIsNeeds(oldD, threshold);
    SameNamesIs(oldD, newD);
  }

  lemma OutersHaveDots(es: seq<Entry>)
    requires Computable(es)
    ensures forall c :: c in Read(es).value.outers ==> '.' in c
  {
    OutersAreOuter(es);
    forall c | c in Read(es).value.outers ensures '.' in c { OuterHasDot(c); }
  }

  /** After a run from scratch the makefile is that of the database. */
  lemma MakefileIs(disk: Disk, es: seq<Entry>, threshold: int)
    requires Computable(es)
    ensures var d, full := Read(es).value, AfterAbsolute(disk, es, threshold);
      "Dependencies.hh" in full
      && IsMakefile(d, threshold, GrandHeaders(d, threshold) != [], full["Dependencies.hh"])
  {
    var d := Read(es).value;
    OutersHaveDots(es);
    PlannedHeaders(d, threshold, |d.outers|);
    EntriesAre(d, threshold, |GrandHeaders(d, threshold)|);
  }

  /** After an incremental run, too, but that a short run counts nothing. */
  lemma MakefileIsToo(disk: Disk, oldEs: seq<Entry>, newEs: seq<Entry>, threshold: int)
    requires Computable(oldEs) && Computable(newEs)
    ensures var oldD, d, after := Read(oldEs).value, Read(newEs).value, AfterRelative(disk, oldEs, newEs, threshold);
      var counted := !NothingNew(oldD, d) && GrandHeaders(d, threshold) != [];
      "Dependencies.hh" in after && IsMakefile(d, threshold, counted, after["Dependencies.hh"])
  {
    var oldD, d := Read(oldEs).value, Read(newEs).value;
    OutersHaveDots(newEs);
    PlannedHeaders(d, threshold, |d.outers|);
    ShortRunIs(oldD, d, threshold);
    EntriesAre(d, threshold, if NothingNew(oldD, d) then 0 else |GrandHeaders(d, threshold)|);
  }

  // ----- what is compiled -----

  /**
   * After a run from scratch, compiling an outer file meets all that it needs, if and only if its name ends in .cpp,
   * or it cannot use the grand include file, or nothing that it needs is popular enough to be moved there.
   */
  lemma WhoSeesAll(disk: Disk, es: seq<Entry>, threshold: int, k: nat)
    requires Computable(es) && k < |Read(es).value.outers|
    requires "_precompiled.hh" !in Needs(Read(es).value, Read(es).value.outers[k])
    ensures var d := Read(es).value;
      var c := d.outers[k];
      (forall x :: Reaches(d.includes, c, x) ==> x in Compiled(AfterAbsolute(disk, es, threshold), c))
      <==> (exists s :: c == s + ".cpp") || c in d.refuses
           || forall x :: Reaches(d.includes, c, x) ==> |Users(d, x)| < threshold
  {
    var d, p := Read(es).value, PlanFor(es, threshold);
    var c, l := d.outers[k], p.listings[k];
    ListingNeeds(d, c);
    PlanIsNeeds(d, threshold);
    ListingReaches(d, c);
    CplusplusNames(c);
    RunShowsClosure(disk, es, threshold, k);
  }

  lemma ListingReaches(d: Db, c: File)
    requires Sound(d) && !Cyclic(d) && c in d.outers
    ensures forall x :: x in ListingOf(d, c).files <==> Reaches(d.includes, c, x)
  {
    ClosureCorrect(d.includes, c);
  }

  lemma CplusplusNames(c: File)
    ensures IsCplusplus(c) <==> exists s :: c == s + ".cpp"
  {
    if IsCplusplus(c) {
      assert c == c[..|c| - 4] + ".cpp";
    }
  }
}
