/** What is written: the individual include files, the grand include file and the makefile. */
module Outputs {
  import opened Seqs
  import opened IncludeGraph
  import opened IncludeDb
  import opened Planning

  datatype MakeEntry =
    | Variable(name: string, words: seq<string>)
    | Rule(targets: seq<string>, prerequisites: seq<string>)

  datatype Content = Text(lines: seq<string>) | Makefile(entries: seq<MakeEntry>)

  type Disk = map<string, Content>

  const GI_NAME := "_precompiled.hh"
  const GI_PATH := "incls/_precompiled.hh"
  const GI_COMPILED := "_precompiled.hh.gch"
  const GD_PATH := "Dependencies.hh"

  function InclName(f: File): string { "_" + f + ".incl" }
  function InclPath(f: File): string { "incls/" + InclName(f) }
  function IncludeLine(f: string): string { "# include \"" + f + "\"" }

  function IncludeLines(fs: seq<File>): seq<string> {
    if fs == [] then [] else IncludeLines(fs[..|fs| - 1]) + [IncludeLine(fs[|fs| - 1])]
  }

  /** Enough outer files need the header for it to go to the grand include file. */
  predicate Qualifies(p: Plan, h: File) {
    Count(p.listings, h) >= p.threshold
  }

  /** The header is left to the grand include file, for a file that may use that one. */
  predicate InGrand(p: Plan, h: File, permitted: bool) {
    Qualifies(p, h) && permitted
  }

  function ForGrand(p: Plan): File -> bool { h => Qualifies(p, h) }
  function NotInGrand(p: Plan, permitted: bool): File -> bool { h => !InGrand(p, h, permitted) }

  function GrandFiles(p: Plan): seq<File> {
    Filter(p.grand, ForGrand(p))
  }

  function Kept(p: Plan, l: Listing): seq<File> {
    Filter(l.files, NotInGrand(p, l.permitted))
  }

  function InclHead(permitted: bool): seq<string> {
    if permitted then [IncludeLine(GI_NAME)] else []
  }

  function InclContent(p: Plan, l: Listing): Content {
    Text(InclHead(l.permitted) + IncludeLines(Kept(p, l)))
  }

  const IF_CPLUSPLUS := "# ifdef __cplusplus"
  const END_IF := "# endif // __cplusplus"

  function GrandHead(): seq<string> { [IF_CPLUSPLUS, ""] }
  function GrandTail(): seq<string> { ["", "", END_IF] }

  function GrandContent(p: Plan): Content {
    Text(GrandHead() + IncludeLines(GrandFiles(p)) + GrandTail())
  }

  lemma IncludeLinesSnoc(fs: seq<File>, f: File)
    ensures IncludeLines(fs + [f]) == IncludeLines(fs) + [IncludeLine(f)]
  {
    assert (fs + [f])[..|fs|] == fs;
  }

  /** What is kept of the first `i` files of a listing, and the lines it gives. */
  function KeptSoFar(p: Plan, l: Listing, i: nat): seq<File>
    requires i <= |l.files|
  {
    Filter(l.files[..i], NotInGrand(p, l.permitted))
  }

  lemma KeptSoFarStep(p: Plan, l: Listing, i: nat)
    requires i < |l.files|
    ensures KeptSoFar(p, l, i + 1) == KeptSoFar(p, l, i)
      + if InGrand(p, l.files[i], l.permitted) then [] else [l.files[i]]
  {
    FilterSnoc(l.files, i, NotInGrand(p, l.permitted));
  }

  function InclSoFar(p: Plan, l: Listing, i: nat): seq<string>
    requires i <= |l.files|
  {
    InclHead(l.permitted) + IncludeLines(KeptSoFar(p, l, i))
  }

  lemma InclSoFarStep(p: Plan, l: Listing, i: nat)
    requires i < |l.files|
    ensures InclSoFar(p, l, i + 1) == InclSoFar(p, l, i)
      + if InGrand(p, l.files[i], l.permitted) then [] else [IncludeLine(l.files[i])]
  {
    var kept := KeptSoFar(p, l, i);
    KeptSoFarStep(p, l, i);
    IncludeLinesSnoc(kept, l.files[i]);
    assert kept + [] == kept;
    assert InclSoFar(p, l, i) + [] == InclSoFar(p, l, i);
  }

  lemma InclSoFarEnds(p: Plan, l: Listing)
    ensures InclSoFar(p, l, 0) == InclHead(l.permitted)
    ensures Text(InclSoFar(p, l, |l.files|)) == InclContent(p, l)
  {
    assert l.files[..|l.files|] == l.files;
  }

  /** What qualifies of the first `i` files of the grand list, and the lines up to there. */
  function QualifiedSoFar(p: Plan, i: nat): seq<File>
    requires i <= |p.grand|
  {
    Filter(p.grand[..i], ForGrand(p))
  }

  function GrandSoFar(p: Plan, i: nat): seq<string>
    requires i <= |p.grand|
  {
    GrandHead() + IncludeLines(QualifiedSoFar(p, i))
  }

  lemma QualifiedSoFarStep(p: Plan, i: nat)
    requires i < |p.grand|
    ensures QualifiedSoFar(p, i + 1) == QualifiedSoFar(p, i) + if Qualifies(p, p.grand[i]) then [p.grand[i]] else []
  {
    FilterSnoc(p.grand, i, ForGrand(p));
  }

  lemma GrandSoFarStep(p: Plan, i: nat)
    requires i < |p.grand|
    ensures QualifiedSoFar(p, i + 1) == QualifiedSoFar(p, i) + if Qualifies(p, p.grand[i]) then [p.grand[i]] else []
    ensures GrandSoFar(p, i + 1) == GrandSoFar(p, i)
      + if Qualifies(p, p.grand[i]) then [IncludeLine(p.grand[i])] else []
  {
    var kept, lines := QualifiedSoFar(p, i), IncludeLines(QualifiedSoFar(p, i));
    QualifiedSoFarStep(p, i);
    if Qualifies(p, p.grand[i]) {
      IncludeLinesSnoc(kept, p.grand[i]);
      Associative(GrandHead(), lines, [IncludeLine(p.grand[i])]);
    } else {
      assert kept + [] == kept && GrandSoFar(p, i) + [] == GrandSoFar(p, i);
    }
  }

  lemma GrandSoFarEnds(p: Plan)
    ensures QualifiedSoFar(p, 0) == [] && QualifiedSoFar(p, |p.grand|) == GrandFiles(p)
    ensures GrandSoFar(p, 0) == GrandHead()
    ensures Text(GrandSoFar(p, |p.grand|) + GrandTail()) == GrandContent(p)
  {
    assert p.grand[..|p.grand|] == p.grand;
  }

  // ----- the makefile -----

  /** The name without its last suffix. */
  function Stem(f: File): string {
    if f == "" then ""
    else if f[|f| - 1] == '.' then f[..|f| - 1]
    else Stem(f[..|f| - 1])
  }

  /** The stem is what comes before the last dot. */
  lemma {:induction false} StemEndsAtLastDot(f: File)
    requires '.' in f
    ensures |Stem(f)| < |f| && f[|Stem(f)|] == '.' && f[..|Stem(f)|] == Stem(f)
    ensures '.' !in f[|Stem(f)| + 1..]
  {
    var init := f[..|f| - 1];
    if f[|f| - 1] != '.' {
      assert f == init + [f[|f| - 1]];
      StemEndsAtLastDot(init);
      assert f[|Stem(f)| + 1..] == init[|Stem(f)| + 1..] + [f[|f| - 1]];
    }
  }

  function ObjFile(f: File): string { Stem(f) + ".o" }
  function AsmFile(f: File): string { Stem(f) + ".i" }

  function ObjFiles(ls: seq<Listing>): seq<string> {
    if ls == [] then [] else ObjFiles(ls[..|ls| - 1]) + [ObjFile(ls[|ls| - 1].name)]
  }

  function PdsOf(p: Plan, h: File): seq<File> {
    if h in p.pds then p.pds[h] else []
  }

  /** Each header followed by its platform-dependent includees. */
  function WithPds(p: Plan, hs: seq<File>): seq<File> {
    if hs == [] then [] else
    WithPds(p, hs[..|hs| - 1]) + [hs[|hs| - 1]] + PdsOf(p, hs[|hs| - 1])
  }

  lemma WithPdsSnoc(p: Plan, hs: seq<File>, h: File)
    ensures WithPds(p, hs + [h]) == WithPds(p, hs) + [h] + PdsOf(p, h)
  {
    assert (hs + [h])[..|hs|] == hs;
  }

  /** Prerequisites from the first `i` files of a listing, and words from those of the grand list. */
  function PrereqsSoFar(p: Plan, l: Listing, i: nat): seq<File>
    requires i <= |l.files|
  {
    WithPds(p, KeptSoFar(p, l, i))
  }

  lemma PrereqsSoFarStep(p: Plan, l: Listing, i: nat)
    requires i < |l.files|
    ensures PrereqsSoFar(p, l, i + 1) == if InGrand(p, l.files[i], l.permitted) then PrereqsSoFar(p, l, i)
      else PrereqsSoFar(p, l, i) + [l.files[i]] + PdsOf(p, l.files[i])
  {
    var kept := KeptSoFar(p, l, i);
    KeptSoFarStep(p, l, i);
    WithPdsSnoc(p, kept, l.files[i]);
    assert kept + [] == kept;
  }

  lemma PrereqsSoFarEnds(p: Plan, l: Listing)
    ensures PrereqsSoFar(p, l, 0) == [] && PrereqsSoFar(p, l, |l.files|) == WithPds(p, Kept(p, l))
  {
    assert l.files[..|l.files|] == l.files;
  }

  function WordsSoFar(p: Plan, i: nat): seq<File>
    requires i <= |p.grand|
  {
    WithPds(p, QualifiedSoFar(p, i))
  }

  lemma WordsSoFarStep(p: Plan, i: nat)
    requires i < |p.grand|
    ensures WordsSoFar(p, i + 1) == if !Qualifies(p, p.grand[i]) then WordsSoFar(p, i)
      else WordsSoFar(p, i) + [p.grand[i]] + PdsOf(p, p.grand[i])
  {
    GrandSoFarStep(p, i);
    WithPdsSnoc(p, QualifiedSoFar(p, i), p.grand[i]);
    assert QualifiedSoFar(p, i) + [] == QualifiedSoFar(p, i);
  }

  function ObjRule(p: Plan, l: Listing): MakeEntry {
    Rule([ObjFile(l.name), AsmFile(l.name)],
         [l.name, InclName(l.name), GI_COMPILED] + WithPds(p, Kept(p, l)))
  }

  function ObjRules(p: Plan, ls: seq<Listing>): seq<MakeEntry> {
    if ls == [] then [] else ObjRules(p, ls[..|ls| - 1]) + [ObjRule(p, ls[|ls| - 1])]
  }

  lemma ObjsSnoc(p: Plan, ls: seq<Listing>, i: nat)
    requires i < |ls|
    ensures ObjFiles(ls[..i + 1]) == ObjFiles(ls[..i]) + [ObjFile(ls[i].name)]
    ensures ObjRules(p, ls[..i + 1]) == ObjRules(p, ls[..i]) + [ObjRule(p, ls[i])]
  {
    assert ls[..i + 1][..i] == ls[..i];
  }

  const PRECOMPILED := "Precompiled_Files"

  function Reference(variable: string): string { "$(" + variable + ")" }

  function PrecompiledVariable(p: Plan): MakeEntry {
    Variable(PRECOMPILED, WithPds(p, GrandFiles(p)))
  }

  function PrecompiledRule(): MakeEntry {
    Rule([GI_COMPILED], [Reference(PRECOMPILED)])
  }

  /** `precompiled` is the number of headers written to the grand include file in this run. */
  function MakeEntries(p: Plan, precompiled: int): seq<MakeEntry> {
    [Variable("Obj_Files", ObjFiles(p.listings))]
    + (if precompiled > 0 then [PrecompiledVariable(p)] else [])
    + ObjRules(p, p.listings)
    + (if precompiled > 0 then [PrecompiledRule()] else [])
  }

  /** Every outer file has a suffix, so the makefile can name its object file. */
  ghost predicate HaveSuffixes(ls: seq<Listing>) {
    forall k :: 0 <= k < |ls| ==> '.' in ls[k].name
  }

  // ----- the disk -----

  /** The include files of the first `n` listings are written. */
  function PutListings(disk: Disk, p: Plan, n: nat): Disk
    requires n <= |p.listings|
  {
    if n == 0 then disk else PutListing(PutListings(disk, p, n - 1), p, p.listings[n - 1])
  }

  function PutListing(disk: Disk, p: Plan, l: Listing): Disk {
    disk[InclPath(l.name) := InclContent(p, l)]
  }

  /** A full run is fatal on an outer file whose include file name is too long. */
  ghost predicate AllFit(ls: seq<Listing>, n: nat)
    requires n <= |ls|
  {
    forall k :: 0 <= k < n ==> InclNameFits(ls[k].name)
  }

  /** The disk after everything is written. */
  function PutAll(disk: Disk, p: Plan): Disk {
    PutListings(disk, p, |p.listings|)
      [GI_PATH := GrandContent(p)]
      [GD_PATH := Makefile(MakeEntries(p, |GrandFiles(p)|))]
  }

  /** Reading a four-word line writes a file that includes the platform's own header. */
  function PutPd(disk: Disk, e: Entry): Disk {
    if e.Quad? then disk[InclPath(e.fooPd) := Text([IncludeLine(e.fooArch)])] else disk
  }

  function PutPds(disk: Disk, es: seq<Entry>): Disk {
    if es == [] then disk else PutPd(PutPds(disk, es[..|es| - 1]), es[|es| - 1])
  }

  lemma PutPdsSnoc(disk: Disk, es: seq<Entry>, i: nat)
    requires i < |es|
    ensures PutPds(disk, es[..i + 1]) == PutPd(PutPds(disk, es[..i]), es[i])
  {
    assert es[..i + 1][..i] == es[..i];
  }

  // ----- what a compiler and make see -----

  /** Compiled as C++. The includes of the grand include file are for such files only. */
  predicate IsCplusplus(f: File) {
    HasSuffix(f, ".cpp")
  }

  /**
   * The headers an outer file gets, in order: those of the grand include file, if it pulls that in
   * and is C++, then its own.
   */
  function SeenBy(p: Plan, l: Listing): seq<File> {
    (if l.permitted && IsCplusplus(l.name) then GrandFiles(p) else []) + Kept(p, l)
  }

  /** Nothing of the closure of `l` is hidden in the grand include file. */
  predicate SeesAll(p: Plan, l: Listing) {
    IsCplusplus(l.name) || !l.permitted || forall h :: h in l.files ==> !Qualifies(p, h)
  }

  /** The grand include file holds the needed headers at or above the threshold, each after all it includes. */
  lemma GrandIsSelfContained(g: Graph, p: Plan)
    requires GoodPlan(g, p)
    ensures NoDup(GrandFiles(p)) && Ordered(g, GrandFiles(p))
    ensures forall x :: x in GrandFiles(p) <==> Needed(p.listings, x) && Qualifies(p, x)
  {
    var keep := ForGrand(p);
    FilterNoDup(p.grand, keep);
    FilterElems(p.grand, keep);
    forall h, x | h in p.grand && keep(h) && h in g && x in g[h] ensures keep(x) {
      CountNeverFalls(g, p.listings, h, x);
    }
    FilterStaysOrdered(g, p.grand, keep);
  }

  /** Own headers behind those of the grand include file, or without them where those are not needed, are in order. */
  lemma KeptInOrder(g: Graph, p: Plan, l: Listing, grand: seq<File>)
    requires GoodPlan(g, p) && l in p.listings && NoDup(grand) && Ordered(g, grand)
    requires forall x :: x in grand ==> InGrand(p, x, l.permitted)
    requires forall h, x :: h in Kept(p, l) && h in g && x in g[h] && InGrand(p, x, l.permitted) ==> x in grand
    ensures NoDup(grand + Kept(p, l)) && Ordered(g, grand + Kept(p, l))
  {
    var keep := NotInGrand(p, l.permitted);
    FilterNoDup(l.files, keep);
    FilterElems(l.files, keep);
    FilterOrdered(g, grand, l.files, keep);
    NoDupJoin(grand, Kept(p, l));
  }

  /** What is kept includes nothing that was moved to the grand include file. */
  ghost predicate KeptAreFree(g: Graph, p: Plan, l: Listing) {
    forall h, x :: h in Kept(p, l) && h in g && x in g[h] ==> !InGrand(p, x, l.permitted)
  }

  lemma FreeIsOrdered(g: Graph, p: Plan, l: Listing)
    requires GoodPlan(g, p) && l in p.listings && KeptAreFree(g, p, l)
    ensures Ordered(g, Kept(p, l))
  {
    FilterElems(l.files, NotInGrand(p, l.permitted));
    FilterStaysOrdered(g, l.files, NotInGrand(p, l.permitted));
  }

  lemma OrderedIsFree(g: Graph, p: Plan, l: Listing)
    requires Ordered(g, Kept(p, l))
    ensures KeptAreFree(g, p, l)
  {
    var keep := NotInGrand(p, l.permitted);
    FilterElems(l.files, keep);
    forall h, x | h in Kept(p, l) && h in g && x in g[h] ensures !InGrand(p, x, l.permitted) {
      ReachesDirectly(g, h, x);
      OrderedIsClosed(g, Kept(p, l), h, x);
      assert keep(x);
    }
  }

  lemma KeptAlone(g: Graph, p: Plan, l: Listing)
    requires GoodPlan(g, p) && l in p.listings
    ensures NoDup(Kept(p, l)) && (Ordered(g, Kept(p, l)) <==> KeptAreFree(g, p, l))
  {
    FilterNoDup(l.files, NotInGrand(p, l.permitted));
    if KeptAreFree(g, p, l) {
      FreeIsOrdered(g, p, l);
    } else if Ordered(g, Kept(p, l)) {
      OrderedIsFree(g, p, l);
    }
  }

  lemma KeptAfterGrand(g: Graph, p: Plan, l: Listing)
    requires GoodPlan(g, p) && l in p.listings && l.permitted
    ensures var seen := GrandFiles(p) + Kept(p, l);
      NoDup(seen) && Ordered(g, seen) && forall x :: x in seen <==> x in l.files || x in GrandFiles(p)
  {
    var keep := NotInGrand(p, l.permitted);
    GrandIsSelfContained(g, p);
    FilterElems(l.files, keep);
    forall x | x in l.files && !keep(x) ensures x in GrandFiles(p) {
      assert Needed(p.listings, x);
    }
    forall h, x | h in Kept(p, l) && h in g && x in g[h] && InGrand(p, x, l.permitted) ensures x in GrandFiles(p) {
      ReachesDirectly(g, h, x);
      OrderedIsClosed(g, l.files, h, x);
    }
    KeptInOrder(g, p, l, GrandFiles(p));
  }

  /**
   * Moving headers to the grand include file shows an outer file its whole closure if and only if it is
   * C++, may not use that file, or needs nothing in it. Then each header stands behind all it includes;
   * otherwise they do exactly if no header left over includes one that was moved. None stands twice.
   */
  lemma SplitKeepsOrder(g: Graph, p: Plan, l: Listing)
    requires GoodPlan(g, p) && l in p.listings
    ensures (forall x :: x in l.files ==> x in SeenBy(p, l)) <==> SeesAll(p, l)
    ensures NoDup(SeenBy(p, l))
    ensures Ordered(g, SeenBy(p, l)) <==> SeesAll(p, l) || KeptAreFree(g, p, l)
    ensures forall x :: x in SeenBy(p, l) <==>
      || (x in l.files && !InGrand(p, x, l.permitted))
      || (l.permitted && IsCplusplus(l.name) && x in GrandFiles(p))
  {
    FilterElems(l.files, NotInGrand(p, l.permitted));
    KeptAlone(g, p, l);
    if l.permitted && IsCplusplus(l.name) {
      KeptAfterGrand(g, p, l);
    } else {
      assert [] + Kept(p, l) == Kept(p, l);
      if SeesAll(p, l) {
        forall h, x | h in Kept(p, l) && h in g && x in g[h] ensures !InGrand(p, x, l.permitted) {
          ReachesDirectly(g, h, x);
          OrderedIsClosed(g, l.files, h, x);
        }
      }
    }
  }

  /** `x` is a prerequisite of a rule for `target`, named there or by a variable used there. */
  ghost predicate Direct(es: seq<MakeEntry>, target: string, x: string) {
    exists r :: r in es && r.Rule? && target in r.targets && Supplies(es, r.prerequisites, x)
  }

  ghost predicate Supplies(es: seq<MakeEntry>, words: seq<string>, x: string) {
    || x in words
    || exists v :: v in es && v.Variable? && Reference(v.name) in words && x in v.words
  }

  lemma {:induction false} WithPdsHolds(p: Plan, hs: seq<File>, h: File, x: File)
    requires h in hs && (x == h || x in PdsOf(p, h))
    ensures x in WithPds(p, hs)
  {
    if h != hs[|hs| - 1] {
      assert hs == hs[..|hs| - 1] + [hs[|hs| - 1]];
      WithPdsHolds(p, hs[..|hs| - 1], h, x);
    }
  }

  lemma {:induction false} ObjRulesHold(p: Plan, ls: seq<Listing>, l: Listing)
    requires l in ls
    ensures ObjRule(p, l) in ObjRules(p, ls)
  {
    if l != ls[|ls| - 1] {
      assert ls == ls[..|ls| - 1] + [ls[|ls| - 1]];
      ObjRulesHold(p, ls[..|ls| - 1], l);
    }
  }

  /** The words that headers give, and no others. */
  lemma {:induction false} WithPdsElems(p: Plan, hs: seq<File>, x: File)
    ensures x in WithPds(p, hs) <==> exists h :: h in hs && (x == h || x in PdsOf(p, h))
  {
    if hs != [] {
      var init, last := hs[..|hs| - 1], hs[|hs| - 1];
      WithPdsElems(p, init, x);
      assert forall h :: h in hs <==> h in init || h == last by { assert hs == init + [last]; }
    }
  }

  lemma {:induction false} ObjRulesAre(p: Plan, ls: seq<Listing>, r: MakeEntry)
    requires r in ObjRules(p, ls)
    ensures exists l :: l in ls && r == ObjRule(p, l)
  {
    var init, last := ls[..|ls| - 1], ls[|ls| - 1];
    assert last in ls && forall l :: l in init ==> l in ls;
    if r != ObjRule(p, last) {
      ObjRulesAre(p, init, r);
    }
  }

  lemma ObjectIsNotCompiled(f: File)
    ensures ObjFile(f) != GI_COMPILED && AsmFile(f) != GI_COMPILED
  {
    assert ObjFile(f)[|ObjFile(f)| - 1] == 'o' && AsmFile(f)[|AsmFile(f)| - 1] == 'i';
    assert GI_COMPILED[|GI_COMPILED| - 1] == 'h';
  }

  /** The only rule for the compiled grand include file is the one made for it. */
  lemma CompiledRuleIsOne(p: Plan, n: int, r: MakeEntry)
    requires r in MakeEntries(p, n) && r.Rule? && GI_COMPILED in r.targets
    ensures n > 0 && r == PrecompiledRule()
  {
    if r in ObjRules(p, p.listings) {
      ObjRulesAre(p, p.listings, r);
      var l :| l in p.listings && r == ObjRule(p, l);
      ObjectIsNotCompiled(l.name);
    }
  }

  lemma ReferenceInjective(v: string, w: string)
    ensures Reference(v) == Reference(w) ==> v == w
  {
    assert Reference(v)[2..2 + |v|] == v && Reference(w)[2..2 + |w|] == w;
    assert |Reference(v)| == |v| + 3 && |Reference(w)| == |w| + 3;
  }

  /** What that rule depends on. */
  lemma CompiledSupplies(p: Plan, n: int, x: string)
    requires n > 0
    ensures Supplies(MakeEntries(p, n), PrecompiledRule().prerequisites, x)
      <==> x == Reference(PRECOMPILED) || x in WithPds(p, GrandFiles(p))
  {
    var es, words := MakeEntries(p, n), PrecompiledRule().prerequisites;
    assert PrecompiledVariable(p) in es;
    forall v | v in es && v.Variable? && Reference(v.name) in words ensures v == PrecompiledVariable(p) {
      ReferenceInjective(v.name, PRECOMPILED);
      assert "Obj_Files"[0] != PRECOMPILED[0];
      if v in ObjRules(p, p.listings) {
        ObjRulesAre(p, p.listings, v);
      }
    }
  }

  /** The compiled grand include file depends on its headers and theirs if they were counted, and on nothing otherwise. */
  lemma CompiledDepends(p: Plan, n: int, x: string)
    ensures Direct(MakeEntries(p, n), GI_COMPILED, x)
      <==> n > 0 && (x == Reference(PRECOMPILED) || x in WithPds(p, GrandFiles(p)))
  {
    var es := MakeEntries(p, n);
    if n > 0 {
      assert PrecompiledRule() in es && GI_COMPILED in PrecompiledRule().targets;
      CompiledSupplies(p, n, x);
    }
    if Direct(es, GI_COMPILED, x) {
      var r :| r in es && r.Rule? && GI_COMPILED in r.targets && Supplies(es, r.prerequisites, x);
      CompiledRuleIsOne(p, n, r);
    }
  }

  /**
   * The rule of an object file does not name a header that was moved to the grand include file, but for
   * names that stand there anyway: so it needs the compiled file for the dependency.
   */
  lemma MovedIsNotNamed(p: Plan, l: Listing, h: File)
    requires h in l.files && InGrand(p, h, l.permitted)
    ensures h in ObjRule(p, l).prerequisites
      <==> h == l.name || h == InclName(l.name) || h == GI_COMPILED || exists f :: f in Kept(p, l) && h in PdsOf(p, f)
  {
    FilterElems(l.files, NotInGrand(p, l.permitted));
    WithPdsElems(p, Kept(p, l), h);
    assert h !in Kept(p, l);
  }

  /** A header left in the list of its outer file is a prerequisite of the object file. */
  lemma KeptIsSupplied(p: Plan, l: Listing, h: File, x: File)
    requires l in p.listings && h in Kept(p, l) && (x == h || x in PdsOf(p, h))
    ensures Direct(MakeEntries(p, |GrandFiles(p)|), ObjFile(l.name), x)
  {
    var es := MakeEntries(p, |GrandFiles(p)|);
    ObjRulesHold(p, p.listings, l);
    assert ObjRule(p, l) in es;
    WithPdsHolds(p, Kept(p, l), h, x);
    assert Supplies(es, ObjRule(p, l).prerequisites, x);
  }

  /** One in the grand include file is a prerequisite of that file, compiled. */
  lemma GrandIsSupplied(p: Plan, h: File, x: File)
    requires h in GrandFiles(p) && (x == h || x in PdsOf(p, h))
    ensures Direct(MakeEntries(p, |GrandFiles(p)|), GI_COMPILED, x)
  {
    var es := MakeEntries(p, |GrandFiles(p)|);
    WithPdsHolds(p, GrandFiles(p), h, x);
    assert PrecompiledVariable(p) in es && PrecompiledRule() in es;
    assert Supplies(es, PrecompiledRule().prerequisites, x);
  }

  /** And the compiled file is one of every object file that may use it, once it is not empty. */
  lemma CompiledIsSupplied(p: Plan, l: Listing)
    requires l in p.listings && l.permitted && GrandFiles(p) != []
    ensures Direct(MakeEntries(p, |GrandFiles(p)|), ObjFile(l.name), GI_COMPILED)
  {
    var es := MakeEntries(p, |GrandFiles(p)|);
    ObjRulesHold(p, p.listings, l);
    assert ObjRule(p, l) in es && PrecompiledVariable(p) in es;
    assert Supplies(es, ObjRule(p, l).prerequisites, GI_COMPILED);
  }

  /**
   * The makefile written by a full run misses nothing: every header in the closure of an outer
   * file, and each of its platform-dependent includees, is a prerequisite of the object file or
   * of the compiled grand include file that the object file depends on.
   */
  lemma MakefileIsComplete(g: Graph, p: Plan, l: Listing, h: File, x: File)
    requires GoodPlan(g, p) && l in p.listings && h in l.files && (x == h || x in PdsOf(p, h))
    ensures var es := MakeEntries(p, |GrandFiles(p)|);
      Direct(es, ObjFile(l.name), x)
      || (Direct(es, ObjFile(l.name), GI_COMPILED) && Direct(es, GI_COMPILED, x))
  {
    FilterElems(l.files, NotInGrand(p, l.permitted));
    if InGrand(p, h, l.permitted) {
      assert Needed(p.listings, h);
      GrandIsSelfContained(g, p);
      GrandIsSupplied(p, h, x);
      CompiledIsSupplied(p, l);
    } else {
      KeptIsSupplied(p, l, h, x);
    }
  }
}
